/** The host the installer runs on, reduced to the answers its external
    effects give, and the state those effects leave behind.

    Every external effect of the installer is an oracle: the search-path probe
    (`which`/`where`), the `apt-cache show` probe, the exit status of each
    child process and the outcome of each filesystem call. A child process and
    a filesystem call are answered by position in the trace as well as by what
    they are, so the same call issued twice may be answered differently. */
module Machine {
  import opened Wrappers
  import opened Paths

  /** `env::consts::OS`, made a runtime value so that every platform's branch
      is visible in one model. */
  datatype OS = MacOS | Windows | Linux | OtherOS(name: string)

  /** A child process: the program and its argument list. */
  datatype Command = Command(program: string, args: seq<string>)

  /** A finished child process: whether it succeeded, and the text the
      standard library renders for its status. */
  datatype ExitStatus = ExitStatus(success: bool, shown: string)

  /** What `Command::status()` gives back: the child ran and exited, or it
      could not be started. */
  datatype Spawn = Exited(status: ExitStatus) | SpawnError(reason: string)

  /** What a `std::fs` call gives back. */
  datatype IoResult = IoOk | IoError(reason: string)

  /** The filesystem calls the installer makes. */
  datatype FsCall = CreateDirAll(dir: Path) | RemoveDirAll(dir: Path) | CopyFile(from: Path, to: Path)

  /** One external effect, in the order the installer issues it. */
  datatype Step =
    | Locate(tool: string)        // `which <tool>`
    | AptCacheShow(pkg: string)   // `apt-cache show <pkg>`
    | Exec(cmd: Command)          // any other child process
    | Fs(call: FsCall)

  /** The host: platform, directories, and the answers to every effect.
      `diskImage` holds the paths (relative to its root) inside the downloaded
      macOS disk image, which mounting makes visible. */
  datatype Host = Host(
    os: OS,
    arch: string,
    homeDir: Option<Path>,
    tempDir: Path,
    onPath: string -> bool,
    aptHas: string -> bool,
    status: (nat, Command) -> Spawn,
    io: (nat, FsCall) -> IoResult,
    diskImage: set<Path>)

  /** Existing paths, whether the installer's disk image is attached at its
      mount directory, and every effect issued so far. */
  datatype World = World(paths: set<Path>, mounted: bool, trace: seq<Step>)

  /** The answer of an effect and the world after it. */
  datatype After<+T> = After(value: T, world: World)

  function Record(w: World, s: Step): World
  {
    w.(trace := w.trace + [s])
  }

  /** `which_exists(tool)`: false on any failure of the probe itself. */
  function Probe(h: Host, w: World, tool: string): (r: After<bool>)
    ensures r.world == w.(trace := w.trace + [Locate(tool)]) && Extends(w, r.world)
  {
    After(h.onPath(tool), Record(w, Locate(tool)))
  }

  /** The steps of probing `tools` one after another. */
  function Locates(tools: seq<string>): (r: seq<Step>)
    ensures |r| == |tools| && forall k :: 0 <= k < |tools| ==> r[k] == Locate(tools[k])
  {
    seq(|tools|, k requires 0 <= k < |tools| => Locate(tools[k]))
  }

  /** `package_exists_apt(pkg)`. */
  function ProbeApt(h: Host, w: World, pkg: string): (r: After<bool>)
    ensures r.world == w.(trace := w.trace + [AptCacheShow(pkg)]) && Extends(w, r.world)
  {
    After(h.aptHas(pkg), Record(w, AptCacheShow(pkg)))
  }

  /** Runs a child process; its effect on the filesystem, if any, is applied
      by the caller that knows what the program does. */
  function Run(h: Host, w: World, cmd: Command): (r: After<Spawn>)
    ensures r.world == w.(trace := w.trace + [Exec(cmd)]) && Extends(w, r.world)
  {
    After(h.status(|w.trace|, cmd), Record(w, Exec(cmd)))
  }

  /** `fs::create_dir_all(dir)`. */
  function MakeDirAll(h: Host, w: World, dir: Path): (r: After<IoResult>)
    ensures r.world.trace == w.trace + [Fs(CreateDirAll(dir))] && Extends(w, r.world)
    ensures r.world.mounted == w.mounted
  {
    var call := CreateDirAll(dir);
    var res := h.io(|w.trace|, call);
    var w' := Record(w, Fs(call));
    After(res, if res.IoOk? then w'.(paths := w.paths + {dir}) else w')
  }

  /** `paths` with `dir` and everything below it gone. */
  function WithoutTree(paths: set<Path>, dir: Path): (r: set<Path>)
  {
    set q | q in paths && !Within(dir, q)
  }

  /** `fs::remove_dir_all(dir)`. */
  function RemoveTree(h: Host, w: World, dir: Path): (r: After<IoResult>)
    ensures r.world.trace == w.trace + [Fs(RemoveDirAll(dir))] && Extends(w, r.world)
    ensures r.world.mounted == w.mounted
  {
    var call := RemoveDirAll(dir);
    var res := h.io(|w.trace|, call);
    var w' := Record(w, Fs(call));
    After(res, if res.IoOk? then w'.(paths := WithoutTree(w.paths, dir)) else w')
  }

  /** `fs::copy(from, to)`. */
  function Copy(h: Host, w: World, from: Path, to: Path): (r: After<IoResult>)
    ensures r.world.trace == w.trace + [Fs(CopyFile(from, to))] && Extends(w, r.world)
    ensures r.world.mounted == w.mounted
  {
    var call := CopyFile(from, to);
    var res := h.io(|w.trace|, call);
    var w' := Record(w, Fs(call));
    After(res, if res.IoOk? then w'.(paths := w.paths + {to}) else w')
  }

  /** The filesystem calls the installer itself issues between `w` and `w'`
      all act on paths below `root`. Files written by the child processes it
      runs (a download tool, `cp -R`) are not steps of the trace and are
      described by the command's arguments instead. */
  predicate WritesBelow(root: Path, w: World, w': World)
  {
    forall k :: |w.trace| <= k < |w'.trace| && w'.trace[k].Fs? ==> Within(root, Target(w'.trace[k].call))
  }

  /** No filesystem call was issued between `w` and `w'`. */
  predicate FilesUntouched(w: World, w': World)
  {
    forall k :: |w.trace| <= k < |w'.trace| ==> !w'.trace[k].Fs?
  }

  /** Writing below `root` in two stretches is writing below `root`. */
  lemma WritesBelowChain(root: Path, w1: World, w2: World, w3: World)
    requires Extends(w1, w2) && Extends(w2, w3)
    requires WritesBelow(root, w1, w2) && WritesBelow(root, w2, w3)
    ensures Extends(w1, w3) && WritesBelow(root, w1, w3)
  {
    forall k | |w1.trace| <= k < |w3.trace| && w3.trace[k].Fs?
      ensures Within(root, Target(w3.trace[k].call))
    {
      if k < |w2.trace| {
        assert w3.trace[k] == w2.trace[k];
      }
    }
  }

  /** The path a filesystem call creates, removes or overwrites. */
  function Target(c: FsCall): Path
  {
    match c
    case CreateDirAll(d) => d
    case RemoveDirAll(d) => d
    case CopyFile(_, t) => t
  }

  /** The steps `w'` added after those of `w`. */
  function Since(w: World, w': World): seq<Step>
    requires |w.trace| <= |w'.trace|
  {
    w'.trace[|w.trace|..]
  }

  /** The trace only grows. */
  predicate Extends(w: World, w': World)
  {
    |w.trace| <= |w'.trace| && forall k :: 0 <= k < |w.trace| ==> w'.trace[k] == w.trace[k]
  }
}
