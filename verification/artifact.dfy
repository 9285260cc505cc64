/** The artifact resolver: which download the pinned BrowserOS release offers
    for a platform (`get_browseros_package`). */
module Artifact {
  import opened Wrappers
  import opened Text
  import opened Machine

  /** `BROWSEROS_VERSION`, the pinned release. */
  const Version: string := "0.39.0.3"

  /** Where releases live on the download server. */
  const ReleaseRoot: string := "http://cdn.browseros.com/releases/"

  /** A download: where to fetch it and the name to store it under. */
  datatype Package = Package(url: string, fileName: string)

  /** `env::consts::OS` as the source prints it. */
  function OsName(os: OS): string
  {
    match os
    case MacOS => "macos"
    case Windows => "windows"
    case Linux => "linux"
    case OtherOS(n) => n
  }

  /** The descriptor the pinned release publishes in directory `dir` with file
      suffix `suffix`. The source writes each URL and name out as a literal;
      here they are assembled from `Version` and the literal spelling is
      checked by the `...Spelling` lemmas below. */
  function Published(dir: string, suffix: string): Package
  {
    var name := "BrowserOS_v" + Version + suffix;
    Package(ReleaseRoot + Version + "/" + dir + "/" + name, name)
  }

  const MacArm64: Package := Published("macos", "_arm64.dmg")
  const MacX64: Package := Published("macos", "_x64.dmg")
  const MacUniversal: Package := Published("macos", "_universal.dmg")
  const WindowsInstaller: Package := Published("win", "_x64_installer.exe")
  const LinuxAppImage: Package := Published("linux", "_x64.AppImage")

  /** `get_browseros_package`: macOS picks by architecture with a universal
      fallback, Windows and Linux have one artifact each, anything else has
      none. */
  function GetPackage(os: OS, arch: string): (r: Option<Package>)
    ensures r.None? <==> os.OtherOS?
    ensures os == MacOS && arch == "aarch64" ==> r == Some(MacArm64)
    ensures os == MacOS && arch == "x86_64" ==> r == Some(MacX64)
    ensures os == MacOS && arch != "aarch64" && arch != "x86_64" ==> r == Some(MacUniversal)
    ensures os == Windows ==> r == Some(WindowsInstaller)
    ensures os == Linux ==> r == Some(LinuxAppImage)
  {
    match os
    case MacOS =>
      if arch == "aarch64" then Some(MacArm64)
      else if arch == "x86_64" then Some(MacX64)
      else Some(MacUniversal)
    case Windows => Some(WindowsInstaller)
    case Linux => Some(LinuxAppImage)
    case OtherOS(_) => None
  }

  /** Every descriptor the table yields: its URL is the release directory of
      the pinned version followed by `/` and the file name, and the file name
      carries the version. */
  lemma DescriptorShape(os: OS, arch: string)
    ensures GetPackage(os, arch).Some? ==>
      var p := GetPackage(os, arch).value;
      && StartsWith(p.url, ReleaseRoot + Version + "/")
      && EndsWith(p.url, "/" + p.fileName)
      && Contains(p.fileName, Version)
  {
    if GetPackage(os, arch).Some? {
      var p := GetPackage(os, arch).value;
      var dir, suffix :| p == Published(dir, suffix);
      PublishedShape(dir, suffix);
    }
  }

  lemma PublishedShape(dir: string, suffix: string)
    ensures var p := Published(dir, suffix);
      && StartsWith(p.url, ReleaseRoot + Version + "/")
      && EndsWith(p.url, "/" + p.fileName)
      && Contains(p.fileName, Version)
  {
    var p := Published(dir, suffix);
    var head := ReleaseRoot + Version + "/";
    assert p.url == head + (dir + "/" + p.fileName);
    assert p.url[..|head|] == head;
    assert p.url == (head + dir) + ("/" + p.fileName);
    assert p.url[|p.url| - |"/" + p.fileName|..] == "/" + p.fileName;
    ContainsMiddle("BrowserOS_v", Version, suffix);
  }

  /** The five file names, spelt out as the source writes them. */
  lemma FileNameSpelling()
    ensures MacArm64.fileName == "BrowserOS_v0.39.0.3_arm64.dmg"
    ensures MacX64.fileName == "BrowserOS_v0.39.0.3_x64.dmg"
    ensures MacUniversal.fileName == "BrowserOS_v0.39.0.3_universal.dmg"
    ensures WindowsInstaller.fileName == "BrowserOS_v0.39.0.3_x64_installer.exe"
    ensures LinuxAppImage.fileName == "BrowserOS_v0.39.0.3_x64.AppImage"
  {
    VersionedStem();
    MacNames();
    OtherNames();
  }

  /** The stem every file name shares; one step of `FileNameSpelling`,
      split off to keep its proof small. */
  lemma VersionedStem()
    ensures "BrowserOS_v" + Version == "BrowserOS_v0.39.0.3"
  {
  }

  /** The macOS file names from the stem; one step of `FileNameSpelling`. */
  lemma MacNames()
    ensures "BrowserOS_v0.39.0.3" + "_arm64.dmg" == "BrowserOS_v0.39.0.3_arm64.dmg"
    ensures "BrowserOS_v0.39.0.3" + "_x64.dmg" == "BrowserOS_v0.39.0.3_x64.dmg"
    ensures "BrowserOS_v0.39.0.3" + "_universal.dmg" == "BrowserOS_v0.39.0.3_universal.dmg"
  {
  }

  /** The Windows and Linux file names from the stem; one step of `FileNameSpelling`. */
  lemma OtherNames()
    ensures "BrowserOS_v0.39.0.3" + "_x64_installer.exe" == "BrowserOS_v0.39.0.3_x64_installer.exe"
    ensures "BrowserOS_v0.39.0.3" + "_x64.AppImage" == "BrowserOS_v0.39.0.3_x64.AppImage"
  {
  }

  /** The five download URLs, spelt out as the source writes them. */
  lemma UrlSpelling()
    ensures MacArm64.url == "http://cdn.browseros.com/releases/0.39.0.3/macos/BrowserOS_v0.39.0.3_arm64.dmg"
    ensures MacX64.url == "http://cdn.browseros.com/releases/0.39.0.3/macos/BrowserOS_v0.39.0.3_x64.dmg"
    ensures MacUniversal.url == "http://cdn.browseros.com/releases/0.39.0.3/macos/BrowserOS_v0.39.0.3_universal.dmg"
    ensures WindowsInstaller.url == "http://cdn.browseros.com/releases/0.39.0.3/win/BrowserOS_v0.39.0.3_x64_installer.exe"
    ensures LinuxAppImage.url == "http://cdn.browseros.com/releases/0.39.0.3/linux/BrowserOS_v0.39.0.3_x64.AppImage"
  {
    MacArm64Url();
    MacX64Url();
    MacUniversalUrl();
    WindowsUrl();
    LinuxUrl();
  }

  /** One URL of `UrlSpelling`; each URL gets its own lemma to keep the proofs small. */
  lemma MacArm64Url()
    ensures MacArm64.url == "http://cdn.browseros.com/releases/0.39.0.3/macos/BrowserOS_v0.39.0.3_arm64.dmg"
  {
    assert MacArm64.fileName == "BrowserOS_v0.39.0.3_arm64.dmg" by { VersionedStem(); }
    DirectoryUrl("macos");
    MacArm64Literal();
  }

  /** The literal concatenation behind `MacArm64Url`, on its own because it is costly to prove. */
  lemma MacArm64Literal()
    ensures "http://cdn.browseros.com/releases/0.39.0.3/macos/" + "BrowserOS_v0.39.0.3_arm64.dmg"
         == "http://cdn.browseros.com/releases/0.39.0.3/macos/BrowserOS_v0.39.0.3_arm64.dmg"
  {
  }

  /** One URL of `UrlSpelling`. */
  lemma MacX64Url()
    ensures MacX64.url == "http://cdn.browseros.com/releases/0.39.0.3/macos/BrowserOS_v0.39.0.3_x64.dmg"
  {
    assert MacX64.fileName == "BrowserOS_v0.39.0.3_x64.dmg" by { VersionedStem(); }
    DirectoryUrl("macos");
    MacX64Literal();
  }

  /** The literal concatenation behind `MacX64Url`. */
  lemma MacX64Literal()
    ensures "http://cdn.browseros.com/releases/0.39.0.3/macos/" + "BrowserOS_v0.39.0.3_x64.dmg"
         == "http://cdn.browseros.com/releases/0.39.0.3/macos/BrowserOS_v0.39.0.3_x64.dmg"
  {
  }

  /** One URL of `UrlSpelling`. */
  lemma MacUniversalUrl()
    ensures MacUniversal.url == "http://cdn.browseros.com/releases/0.39.0.3/macos/BrowserOS_v0.39.0.3_universal.dmg"
  {
    assert MacUniversal.fileName == "BrowserOS_v0.39.0.3_universal.dmg" by { VersionedStem(); }
    DirectoryUrl("macos");
    MacUniversalLiteral();
  }

  /** The literal concatenation behind `MacUniversalUrl`. */
  lemma MacUniversalLiteral()
    ensures "http://cdn.browseros.com/releases/0.39.0.3/macos/" + "BrowserOS_v0.39.0.3_universal.dmg"
         == "http://cdn.browseros.com/releases/0.39.0.3/macos/BrowserOS_v0.39.0.3_universal.dmg"
  {
  }

  /** One URL of `UrlSpelling`. */
  lemma WindowsUrl()
    ensures WindowsInstaller.url == "http://cdn.browseros.com/releases/0.39.0.3/win/BrowserOS_v0.39.0.3_x64_installer.exe"
  {
    assert WindowsInstaller.fileName == "BrowserOS_v0.39.0.3_x64_installer.exe" by { VersionedStem(); }
    DirectoryUrl("win");
    WindowsLiteral();
  }

  /** The literal concatenation behind `WindowsUrl`. */
  lemma WindowsLiteral()
    ensures "http://cdn.browseros.com/releases/0.39.0.3/win/" + "BrowserOS_v0.39.0.3_x64_installer.exe"
         == "http://cdn.browseros.com/releases/0.39.0.3/win/BrowserOS_v0.39.0.3_x64_installer.exe"
  {
  }

  /** One URL of `UrlSpelling`. */
  lemma LinuxUrl()
    ensures LinuxAppImage.url == "http://cdn.browseros.com/releases/0.39.0.3/linux/BrowserOS_v0.39.0.3_x64.AppImage"
  {
    assert LinuxAppImage.fileName == "BrowserOS_v0.39.0.3_x64.AppImage" by { VersionedStem(); }
    DirectoryUrl("linux");
    LinuxLiteral();
  }

  /** The literal concatenation behind `LinuxUrl`. */
  lemma LinuxLiteral()
    ensures "http://cdn.browseros.com/releases/0.39.0.3/linux/" + "BrowserOS_v0.39.0.3_x64.AppImage"
         == "http://cdn.browseros.com/releases/0.39.0.3/linux/BrowserOS_v0.39.0.3_x64.AppImage"
  {
  }

  /** A release directory's URL, spelt out. */
  lemma DirectoryUrl(dir: string)
    ensures ReleaseRoot + Version + "/" + dir + "/" == "http://cdn.browseros.com/releases/0.39.0.3/" + dir + "/"
  {
    assert ReleaseRoot + Version + "/" == "http://cdn.browseros.com/releases/0.39.0.3/";
  }
}
