/** The dependency resolver and install command of `run_install`'s
    `--with-deps` branch: pick a package manager by first match among
    apt-get, dnf and yum, choose its package list (with the renamed audio
    library on apt), and build the shell command that installs it. */
module Dependencies {
  import opened Wrappers
  import opened Text
  import opened Machine
  import opened Probing

  datatype Manager = AptGet | Dnf | Yum

  /** The executable name each manager is probed and invoked by. */
  function ManagerName(m: Manager): string
  {
    match m
    case AptGet => "apt-get"
    case Dnf => "dnf"
    case Yum => "yum"
  }

  /** The probing order: apt-get before dnf before yum. */
  const ManagerOrder: seq<Manager> := [AptGet, Dnf, Yum]
  const ManagerNames: seq<string> := seq(|ManagerOrder|, k requires 0 <= k < |ManagerOrder| => ManagerName(ManagerOrder[k]))

  /** The audio library's name from Ubuntu 24.04 on, and before. */
  const NewAudio: string := "libasound2t64"
  const OldAudio: string := "libasound2"

  /** Position of the audio library in the apt package list. */
  const AudioSlot: nat := 19

  /** The apt package list around the audio library. */
  const AptBefore: seq<string> := [
    "libxcb-shm0", "libx11-xcb1", "libx11-6", "libxcb1", "libxext6",
    "libxrandr2", "libxcomposite1", "libxcursor1", "libxdamage1", "libxfixes3",
    "libxi6", "libgtk-3-0", "libpangocairo-1.0-0", "libpango-1.0-0", "libatk1.0-0",
    "libcairo-gobject2", "libcairo2", "libgdk-pixbuf-2.0-0", "libxrender1"]
  const AptAfter: seq<string> := [
    "libfreetype6", "libfontconfig1", "libdbus-1-3", "libnss3", "libnspr4",
    "libatk-bridge2.0-0", "libdrm2", "libxkbcommon0", "libatspi2.0-0", "libcups2",
    "libxshmfence1", "libgbm1"]

  const DnfPackages: seq<string> := [
    "nss", "nspr", "atk", "at-spi2-atk", "cups-libs", "libdrm", "libXcomposite",
    "libXdamage", "libXrandr", "mesa-libgbm", "pango", "alsa-lib", "libxkbcommon",
    "libxcb", "libX11-xcb", "libX11", "libXext", "libXcursor", "libXfixes", "libXi",
    "gtk3", "cairo-gobject"]
  const YumPackages: seq<string> := [
    "nss", "nspr", "atk", "at-spi2-atk", "cups-libs", "libdrm", "libXcomposite",
    "libXdamage", "libXrandr", "mesa-libgbm", "pango", "alsa-lib", "libxkbcommon"]

  /** The apt package list with `audio` in the audio library's slot. */
  function AptPackages(audio: string): (r: seq<string>)
    ensures |r| == 32 && r[AudioSlot] == audio
  {
    AptBefore + [audio] + AptAfter
  }

  /** The manager picked and the packages it is asked for. */
  datatype Selection = Selection(manager: Manager, packages: seq<string>)

  /** The selection block of `run_install`: probes apt-get, then dnf, then yum,
      stopping at the first present; on apt it also asks `apt-cache` whether
      the renamed audio library exists. */
  function SelectDependencies(h: Host, w: World): (r: After<Option<Selection>>)
    ensures r.value.None? <==> !h.onPath("apt-get") && !h.onPath("dnf") && !h.onPath("yum")
    ensures r.value.Some? ==>
      var m := r.value.value.manager;
      h.onPath(ManagerName(m)) && forall k :: 0 <= k < |ManagerOrder| && Rank(ManagerOrder[k]) < Rank(m) ==> !h.onPath(ManagerNames[k])
    ensures r.value.Some? && r.value.value.manager == AptGet ==>
      r.value.value.packages == AptPackages(if h.aptHas(NewAudio) then NewAudio else OldAudio)
    ensures r.value.Some? && r.value.value.manager == Dnf ==> r.value.value.packages == DnfPackages
    ensures r.value.Some? && r.value.value.manager == Yum ==> r.value.value.packages == YumPackages
    ensures r.world.paths == w.paths && r.world.mounted == w.mounted && Extends(w, r.world)
    ensures FilesUntouched(w, r.world)
  {
    var apt := Probe(h, w, "apt-get");
    if apt.value then
      var t64 := ProbeApt(h, apt.world, NewAudio);
      After(Some(Selection(AptGet, AptPackages(if t64.value then NewAudio else OldAudio))), t64.world)
    else
      var dnf := Probe(h, apt.world, "dnf");
      if dnf.value then After(Some(Selection(Dnf, DnfPackages)), dnf.world)
      else
        var yum := Probe(h, dnf.world, "yum");
        if yum.value then After(Some(Selection(Yum, YumPackages)), yum.world)
        else After(None, yum.world)
  }

  /** A manager's place in the probing order. */
  function Rank(m: Manager): nat
  {
    match m
    case AptGet => 0
    case Dnf => 1
    case Yum => 2
  }

  /** The if/else chain is the first-available rule over the fixed order, and
      it probes exactly the candidates up to the winner (plus the audio probe
      when apt-get wins): apt-get wins whenever present, dnf only without
      apt-get, yum only without both. */
  lemma SelectionIsFirstAvailable(h: Host, w: World)
    ensures var r := SelectDependencies(h, w);
      match FirstAvailable(ManagerNames, h.onPath)
      case None =>
        && r.value.None?
        && Since(w, r.world) == Locates(ManagerNames)
      case Some(i) =>
        && r.value.Some? && r.value.value.manager == ManagerOrder[i]
        && Since(w, r.world) == Locates(ManagerNames[..i + 1]) + (if i == 0 then [AptCacheShow(NewAudio)] else [])
  {
    var r := SelectDependencies(h, w);
    var fa := FirstAvailable(ManagerNames, h.onPath);
    assert ManagerNames[0] == "apt-get" && ManagerNames[1] == "dnf" && ManagerNames[2] == "yum";
    if h.onPath("apt-get") {
      assert fa == Some(0);
      assert Locates(ManagerNames[..1]) == [Locate("apt-get")];
    } else if h.onPath("dnf") {
      assert fa == Some(1);
      assert Locates(ManagerNames[..2]) == [Locate("apt-get"), Locate("dnf")];
    } else if h.onPath("yum") {
      assert fa == Some(2);
      assert Locates(ManagerNames[..3]) == [Locate("apt-get"), Locate("dnf"), Locate("yum")];
    } else {
      assert fa == None;
      assert Locates(ManagerNames) == [Locate("apt-get"), Locate("dnf"), Locate("yum")];
    }
  }

  /** The two apt lists differ only in the audio library's slot. */
  lemma AudioSlotOnly(a: string, b: string)
    ensures forall k :: 0 <= k < 32 && k != AudioSlot ==> AptPackages(a)[k] == AptPackages(b)[k]
  {
  }

  /** A name whose fourth and fifth letters are "as", as in both spellings
      of "libasound": no other package in the apt list has them. */
  predicate AudioLike(w: string)
  {
    |w| >= 5 && w[3] == 'a' && w[4] == 's'
  }

  lemma OthersNotAudio()
    ensures forall k :: 0 <= k < |AptBefore| ==> !AudioLike(AptBefore[k])
    ensures forall k :: 0 <= k < |AptAfter| ==> !AudioLike(AptAfter[k])
  {
  }

  /** The audio library: the apt list holds the new name exactly when
      `apt-cache show` finds it, the old name exactly when it does not, and
      never both. */
  lemma AudioVariant(probe: bool)
    ensures var pkgs := AptPackages(if probe then NewAudio else OldAudio);
      && (NewAudio in pkgs <==> probe)
      && (OldAudio in pkgs <==> !probe)
  {
    var pkgs := AptPackages(if probe then NewAudio else OldAudio);
    OthersNotAudio();
    assert AudioLike(NewAudio) && AudioLike(OldAudio);
    assert NewAudio != OldAudio;
    forall k | 0 <= k < |pkgs| && k != AudioSlot
      ensures !AudioLike(pkgs[k])
    {
      if k < AudioSlot {
        assert pkgs[k] == AptBefore[k];
      } else {
        assert pkgs[k] == AptAfter[k - AudioSlot - 1];
      }
    }
    assert pkgs[AudioSlot] in pkgs;
  }

  /** `install_cmd`: apt refreshes its index before installing; dnf and yum
      install directly. The packages follow as one space-separated list. */
  function InstallCommand(m: Manager, packages: seq<string>): string
  {
    CommandHead(m) + JoinWith(packages, " ")
  }

  /** The text the command starts with before its package list. */
  function CommandHead(m: Manager): string
  {
    if m == AptGet then "sudo apt-get update && sudo apt-get install -y "
    else "sudo " + ManagerName(m) + " install -y "
  }

  /** The install command runs the chosen manager's install, preceded by an
      index refresh exactly on apt, and hands it every package as its own
      shell word, in order. */
  lemma InstallCommandShape(m: Manager, packages: seq<string>)
    requires |packages| >= 1
    requires forall k :: 0 <= k < |packages| ==> ' ' !in packages[k]
    ensures var cmd := InstallCommand(m, packages);
      && StartsWith(cmd, CommandHead(m))
      && Split(cmd[|CommandHead(m)|..], ' ') == packages
      && (StartsWith(cmd, Refresh) <==> m == AptGet)
  {
    var cmd := InstallCommand(m, packages);
    var head := CommandHead(m);
    assert cmd == head + JoinWith(packages, " ");
    assert cmd[..|head|] == head;
    assert cmd[|head|..] == JoinWith(packages, " ");
    SplitJoin(packages, ' ');
    HeadRefreshes(m, JoinWith(packages, " "));
  }

  /** The index refresh apt's command begins with. */
  const Refresh: string := "sudo apt-get update && "

  /** apt's command head is the index refresh followed by the install; a step of `HeadRefreshes`. */
  lemma AptHeadRefreshes()
    ensures CommandHead(AptGet) == Refresh + "sudo apt-get install -y "
  {
    assert Refresh + "sudo apt-get " == "sudo apt-get update && sudo apt-get ";
    assert "sudo apt-get update && sudo apt-get " + "install -y " == CommandHead(AptGet);
  }

  /** Only apt's command begins with the index refresh. */
  lemma HeadRefreshes(m: Manager, rest: string)
    ensures StartsWith(CommandHead(m) + rest, Refresh) <==> m == AptGet
  {
    var cmd := CommandHead(m) + rest;
    if m == AptGet {
      AptHeadRefreshes();
      assert cmd == Refresh + ("sudo apt-get install -y " + rest);
      assert cmd[..|Refresh|] == Refresh;
    } else {
      assert cmd[5] == ManagerName(m)[0] != Refresh[5];
      if |Refresh| <= |cmd| {
        assert cmd[..|Refresh|][5] != Refresh[5];
      }
    }
  }

  /** Every package name in the three lists is a single shell word. */
  lemma AptNamesAreWords(audio: string)
    requires ' ' !in audio
    ensures forall k :: 0 <= k < |AptPackages(audio)| ==> ' ' !in AptPackages(audio)[k]
  {
    var pkgs := AptPackages(audio);
    AptSidesAreWords();
    forall k | 0 <= k < |pkgs|
      ensures ' ' !in pkgs[k]
    {
      if k < AudioSlot {
        assert pkgs[k] == AptBefore[k];
      } else if k > AudioSlot {
        assert pkgs[k] == AptAfter[k - AudioSlot - 1];
      }
    }
  }

  /** The apt names on both sides of the audio slot are words; a step of `AptNamesAreWords`. */
  lemma AptSidesAreWords()
    ensures forall k :: 0 <= k < |AptBefore| ==> ' ' !in AptBefore[k]
    ensures forall k :: 0 <= k < |AptAfter| ==> ' ' !in AptAfter[k]
  {
    AptBeforeAreWords();
    AptAfterAreWords();
  }

  /** The names before the audio slot are words; a step of `AptNamesAreWords`. */
  lemma AptBeforeAreWords()
    ensures forall k :: 0 <= k < |AptBefore| ==> ' ' !in AptBefore[k]
  {
    AptBeforeHeadAreWords();
    AptBeforeTailAreWords();
    forall k | 0 <= k < |AptBefore|
      ensures ' ' !in AptBefore[k]
    {
      if k < 10 {
        assert AptBefore[k] == AptBefore[..10][k];
      } else {
        assert AptBefore[k] == AptBefore[10..][k - 10];
      }
    }
  }

  /** The first part of `AptBeforeAreWords`, split off to keep its proof small. */
  lemma AptBeforeHeadAreWords()
    ensures forall k :: 0 <= k < 10 ==> ' ' !in AptBefore[..10][k]
  {
  }

  /** The second part of `AptBeforeAreWords`, split off to keep its proof small. */
  lemma AptBeforeTailAreWords()
    ensures forall k :: 0 <= k < 9 ==> ' ' !in AptBefore[10..][k]
  {
  }

  /** The names after the audio slot are words; a step of `AptNamesAreWords`. */
  lemma AptAfterAreWords()
    ensures forall k :: 0 <= k < |AptAfter| ==> ' ' !in AptAfter[k]
  {
  }

  /** Every dnf package name is a single shell word. */
  lemma DnfNamesAreWords()
    ensures forall k :: 0 <= k < |DnfPackages| ==> ' ' !in DnfPackages[k]
  {
  }

  /** Every yum package name is a single shell word. */
  lemma YumNamesAreWords()
    ensures forall k :: 0 <= k < |YumPackages| ==> ' ' !in YumPackages[k]
  {
  }
}
