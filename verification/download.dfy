/** The downloader (`download_file`): choose a fetch tool, run it, and map its
    exit status to a result. */
module Download {
  import opened Wrappers
  import opened Text
  import opened Paths
  import opened Machine
  import opened Probing

  /** `curl -fL --retry 3 -o <output> <url>`: the preferred tool, which retries
      up to three times by itself. */
  function Curl(output: string, url: string): Command
  {
    Command("curl", ["-fL", "--retry", "3", "-o", output, url])
  }

  /** `wget -O <output> <url>`. */
  function Wget(output: string, url: string): Command
  {
    Command("wget", ["-O", output, url])
  }

  /** The Windows download: one `Invoke-WebRequest` script. */
  function PowerShell(output: string, url: string): Command
  {
    var script := "$ProgressPreference='SilentlyContinue'; Invoke-WebRequest -Uri '" + url + "' -OutFile '" + output + "'";
    Command("powershell", ["-NoProfile", "-NonInteractive", "-Command", script])
  }

  /** The message for a fetch that ran and exited unsuccessfully. */
  function FailedMessage(url: string, status: ExitStatus): string
  {
    "Download failed for " + url + " (exit status: " + status.shown + ")"
  }

  const NoToolMessage: string := "Neither curl nor wget is available in PATH"

  /** The last step since `w` ran a child process that exited, and whether it
      exited successfully. */
  predicate LastRunExited(h: Host, w: World, w': World, success: bool)
  {
    && |w.trace| < |w'.trace|
    && w'.trace[|w'.trace| - 1].Exec?
    && var s := h.status(|w'.trace| - 1, w'.trace[|w'.trace| - 1].cmd);
       s.Exited? && s.status.success == success
  }

  /** The error names the URL and the status of the last process run. */
  predicate MentionsFailure(h: Host, r: After<Result<()>>, url: string)
    requires r.value.Err? && |r.world.trace| > 0 && r.world.trace[|r.world.trace| - 1].Exec?
  {
    var last := |r.world.trace| - 1;
    var s := h.status(last, r.world.trace[last].cmd);
    && Contains(r.value.error, url)
    && (s.Exited? ==> Contains(r.value.error, s.status.shown))
  }

  /** `download_file(url, output_path)`. The output path must be valid
      Unicode before anything is probed; on Windows PowerShell fetches, and
      elsewhere curl is preferred over wget. Success is the fetch tool's exit
      status and nothing else; a successful fetch leaves the file in place. */
  function DownloadFile(h: Host, w: World, url: string, out: Path): (r: After<Result<()>>)
    ensures !IsUnicode(out) ==> r == After(Err("Invalid output path: " + Display(out)), w)
    ensures r.value.Ok? <==> LastRunExited(h, w, r.world, true)
    ensures LastRunExited(h, w, r.world, false) ==> r.value.Err? && MentionsFailure(h, r, url)
    ensures r.world.paths == if r.value.Ok? then w.paths + {out} else w.paths
    ensures r.world.mounted == w.mounted && Extends(w, r.world)
    ensures FilesUntouched(w, r.world)
  {
    match ToStr(out)
    case None => After(Err("Invalid output path: " + Display(out)), w)
    case Some(output) =>
      if h.os == Windows then
        Fetch(h, w, PowerShell(output, url), "Failed to run PowerShell download: ", url, out)
      else
        FetchFromPath(h, w, output, url, out)
  }

  /** The curl-or-wget choice made off Windows. */
  function FetchFromPath(h: Host, w: World, output: string, url: string, out: Path): (r: After<Result<()>>)
    ensures r.value.Ok? <==> LastRunExited(h, w, r.world, true)
    ensures LastRunExited(h, w, r.world, false) ==> r.value.Err? && MentionsFailure(h, r, url)
    ensures r.world.paths == if r.value.Ok? then w.paths + {out} else w.paths
    ensures r.world.mounted == w.mounted && Extends(w, r.world)
    ensures FilesUntouched(w, r.world)
  {
    var curl := Probe(h, w, "curl");
    if curl.value then
      Fetch(h, curl.world, Curl(output, url), "Failed to run curl: ", url, out)
    else
      FetchWithWget(h, curl.world, output, url, out)
  }

  /** The fallback when curl is missing: wget, or the fixed error. */
  function FetchWithWget(h: Host, w: World, output: string, url: string, out: Path): (r: After<Result<()>>)
    ensures r.value.Ok? <==> LastRunExited(h, w, r.world, true)
    ensures LastRunExited(h, w, r.world, false) ==> r.value.Err? && MentionsFailure(h, r, url)
    ensures r.world.paths == if r.value.Ok? then w.paths + {out} else w.paths
    ensures r.world.mounted == w.mounted && Extends(w, r.world)
    ensures FilesUntouched(w, r.world)
  {
    var wget := Probe(h, w, "wget");
    if wget.value then
      Fetch(h, wget.world, Wget(output, url), "Failed to run wget: ", url, out)
    else After(Err(NoToolMessage), wget.world)
  }

  /** Runs the fetch command and maps its outcome to the result: a process
      that could not be started reports `spawnFailure` and the reason, an
      unsuccessful exit reports the URL and the status. */
  function Fetch(h: Host, w: World, cmd: Command, spawnFailure: string, url: string, out: Path): (r: After<Result<()>>)
    ensures r.world.trace == w.trace + [Exec(cmd)] && r.world.mounted == w.mounted
    ensures r.value.Ok? <==> LastRunExited(h, w, r.world, true)
    ensures LastRunExited(h, w, r.world, false) ==>
      r.value.Err? && Contains(r.value.error, url)
      && Contains(r.value.error, h.status(|w.trace|, cmd).status.shown)
    ensures r.world.paths == if r.value.Ok? then w.paths + {out} else w.paths
  {
    var run := Run(h, w, cmd);
    match run.value
    case SpawnError(e) => After(Err(spawnFailure + e), run.world)
    case Exited(st) =>
      if st.success then After(Ok(()), run.world.(paths := run.world.paths + {out}))
      else
        FailedMessageMentions(url, st);
        After(Err(FailedMessage(url, st)), run.world)
  }

  lemma FailedMessageMentions(url: string, st: ExitStatus)
    ensures Contains(FailedMessage(url, st), url) && Contains(FailedMessage(url, st), st.shown)
  {
    var a := "Download failed for ";
    var b := " (exit status: ";
    var m := FailedMessage(url, st);
    assert m == a + url + (b + st.shown + ")");
    ContainsMiddle(a, url, b + st.shown + ")");
    assert m == (a + url + b) + st.shown + ")";
    ContainsMiddle(a + url + b, st.shown, ")");
  }

  /** The candidates on platforms other than Windows, most preferred first. */
  const FetchTools: seq<string> := ["curl", "wget"]

  /** Off Windows, the tool run is the first of curl and wget found on the
      search path, probing stops at it, and without either nothing is run and
      the fixed error comes back. */
  lemma ToolIsFirstAvailable(h: Host, w: World, url: string, out: Path)
    requires IsUnicode(out) && h.os != Windows
    ensures var r := DownloadFile(h, w, url, out);
      var output := Display(out);
      match FirstAvailable(FetchTools, h.onPath)
      case Some(0) => Since(w, r.world) == [Locate("curl"), Exec(Curl(output, url))]
      case Some(_) => Since(w, r.world) == [Locate("curl"), Locate("wget"), Exec(Wget(output, url))]
      case None =>
        && Since(w, r.world) == Locates(FetchTools)
        && r.value == Err(NoToolMessage)
  {
    var fa := FirstAvailable(FetchTools, h.onPath);
    var output := Display(out);
    var r := DownloadFile(h, w, url, out);
    var curl := Probe(h, w, "curl");
    assert FetchTools[0] == "curl" && FetchTools[1] == "wget";
    if h.onPath("curl") {
      assert fa == Some(0);
      var f := Fetch(h, curl.world, Curl(output, url), "Failed to run curl: ", url, out);
      assert r == f;
      assert f.world.trace == w.trace + [Locate("curl"), Exec(Curl(output, url))];
    } else if h.onPath("wget") {
      assert fa == Some(1);
      var wget := Probe(h, curl.world, "wget");
      var f := Fetch(h, wget.world, Wget(output, url), "Failed to run wget: ", url, out);
      assert r == f;
      assert f.world.trace == w.trace + [Locate("curl"), Locate("wget"), Exec(Wget(output, url))];
    } else {
      assert fa == None;
      assert Locates(FetchTools) == [Locate("curl"), Locate("wget")];
    }
  }

  /** On Windows the one step is the PowerShell fetch; no probe is made. */
  lemma WindowsUsesPowerShell(h: Host, w: World, url: string, out: Path)
    requires IsUnicode(out) && h.os == Windows
    ensures Since(w, DownloadFile(h, w, url, out).world) == [Exec(PowerShell(Display(out), url))]
  {
  }

  /** Off Windows, with curl on the path and exiting successfully, the
      download of a Unicode path succeeds. */
  lemma CurlSucceedsWhenItWorks(h: Host, w: World, url: string, out: Path)
    requires IsUnicode(out) && h.os != Windows && h.onPath("curl")
    requires forall k, c :: h.status(k, c).Exited? && h.status(k, c).status.success
    ensures DownloadFile(h, w, url, out).value.Ok?
  {
  }
}
