/**
 * `SteamPathDetector`: where Steam is installed, where its `userdata` directory is, and the
 * `config/grid` directory of every profile under it.  The operating system, the home directory
 * and the registry value are inputs.
 */
module SteamPaths {
  import opened Wrappers
  import opened Text
  import opened FileSystem

  /** `platform.system()`. */
  datatype Platform = Windows | Linux | Darwin | OtherPlatform

  /** The default install locations, in the order they are tried. */
  function Candidates(platform: Platform, home: Path): seq<Path> {
    match platform
    case Windows => ["C:/Program Files (x86)/Steam", "C:/Program Files/Steam"]
    case Linux => [PathJoin(home, ".local/share/Steam"), PathJoin(home, ".steam/steam")]
    case Darwin => [PathJoin(home, "Library/Application Support/Steam")]
    case OtherPlatform => []
  }

  /** The index of the first candidate that exists and is a directory. */
  function FirstDir(fs: Fs, candidates: seq<Path>): (r: Option<nat>)
    ensures r.Some? ==> r.value < |candidates| && IsDir(fs, candidates[r.value])
    ensures r.Some? ==> forall j :: 0 <= j < r.value ==> !IsDir(fs, candidates[j])
    ensures r.None? ==> forall j :: 0 <= j < |candidates| ==> !IsDir(fs, candidates[j])
  {
    if candidates == [] then None
    else if IsDir(fs, candidates[0]) then Some(0)
    else
      match FirstDir(fs, candidates[1..])
      case None => None
      case Some(i) => Some(i + 1)
  }

  /**
   * What `get_steam_install_path(settings_path)` returns.  `registry` is the `SteamPath` value
   * read from the Windows registry; None when `winreg` is unavailable or reading it raises
   * `OSError`.
   */
  function SteamInstallPath(fs: Fs, settingsPath: string, platform: Platform, home: Path,
                            registry: Option<Path>): Option<Path>
  {
    if settingsPath != "" && IsDir(fs, settingsPath) then Some(settingsPath)
    else if platform == Windows && registry.Some? && Exists(fs, registry.value) then registry
    else
      var candidates := Candidates(platform, home);
      match FirstDir(fs, candidates)
      case None => None
      case Some(i) => Some(candidates[i])
  }

  /** `SteamPathDetector.get_steam_install_path`. */
  method GetSteamInstallPath(fs: Fs, settingsPath: string, platform: Platform, home: Path,
                             registry: Option<Path>) returns (r: Option<Path>)
    ensures r == SteamInstallPath(fs, settingsPath, platform, home, registry)
  {
    if settingsPath != "" && IsDir(fs, settingsPath) {
      return Some(settingsPath);
    }
    if platform == Windows && registry.Some? && Exists(fs, registry.value) {
      return registry;
    }
    var candidates := Candidates(platform, home);
    for i := 0 to |candidates|
      invariant forall j :: 0 <= j < i ==> !IsDir(fs, candidates[j])
    {
      if IsDir(fs, candidates[i]) {
        return Some(candidates[i]);
      }
    }
    return None;
  }

  /**
   * The install path found is the settings path whenever that is an existing directory;
   * otherwise, on Windows, the registry path whenever that exists, ahead of the defaults;
   * otherwise the first default that is a directory, and None when there is none.  Whatever is
   * returned exists, and is a directory unless it came from the registry.
   */
  lemma SteamInstallPathChoice(fs: Fs, settingsPath: string, platform: Platform, home: Path,
                               registry: Option<Path>)
    ensures var r := SteamInstallPath(fs, settingsPath, platform, home, registry);
      && (settingsPath != "" && IsDir(fs, settingsPath) ==> r == Some(settingsPath))
      && ((!(settingsPath != "" && IsDir(fs, settingsPath)) && platform == Windows
           && registry.Some? && Exists(fs, registry.value)) ==> r == registry)
      && (r.Some? ==> Exists(fs, r.value))
      && (r.Some? && r != registry ==> IsDir(fs, r.value))
      && (r.None? <==>
          && !(settingsPath != "" && IsDir(fs, settingsPath))
          && !(platform == Windows && registry.Some? && Exists(fs, registry.value))
          && forall j :: 0 <= j < |Candidates(platform, home)| ==> !IsDir(fs, Candidates(platform, home)[j]))
  {
  }

  /** On an unknown operating system only the settings path can be found. */
  lemma UnknownPlatform(fs: Fs, settingsPath: string, home: Path, registry: Option<Path>)
    requires !(settingsPath != "" && IsDir(fs, settingsPath))
    ensures SteamInstallPath(fs, settingsPath, OtherPlatform, home, registry) == None
  {
  }

  /**
   * What `get_userdata_path(steam_root, override_path)` returns; a missing `steam_root` is
   * detected with the default settings path.
   */
  function UserdataPath(fs: Fs, steamRoot: Option<Path>, overridePath: string, platform: Platform,
                        home: Path, registry: Option<Path>): (r: Option<Path>)
  {
    if overridePath != "" && IsDir(fs, overridePath) then Some(overridePath)
    else
      var root := if steamRoot.Some? then steamRoot else SteamInstallPath(fs, "", platform, home, registry);
      if root.Some? && Exists(fs, PathJoin(root.value, "userdata")) then Some(PathJoin(root.value, "userdata"))
      else None
  }

  /**
   * The userdata path is the override when that is an existing directory, and otherwise
   * `<root>/userdata` when that exists, the root being detected when not given; whatever is
   * returned exists.
   */
  lemma UserdataPathChoice(fs: Fs, steamRoot: Option<Path>, overridePath: string, platform: Platform,
                           home: Path, registry: Option<Path>)
    ensures var r := UserdataPath(fs, steamRoot, overridePath, platform, home, registry);
      var root := if steamRoot.Some? then steamRoot else SteamInstallPath(fs, "", platform, home, registry);
      && (r.Some? ==> Exists(fs, r.value))
      && (overridePath != "" && IsDir(fs, overridePath) ==> r == Some(overridePath))
      && (!(overridePath != "" && IsDir(fs, overridePath)) ==>
            (r.Some? <==> root.Some? && Exists(fs, PathJoin(root.value, "userdata")))
            && (r.Some? ==> r.value == PathJoin(root.value, "userdata")))
  {
  }

  // ---------------------------------------------------------------------------------------
  // Profile grid directories

  /** A profile directory: a directory directly under userdata whose name is all digits. */
  predicate IsProfile(fs: Fs, userdata: Path, name: string) {
    IsDir(fs, PathJoin(userdata, name)) && IsDigits(name)
  }

  function GridDir(userdata: Path, name: string): Path {
    PathJoin(PathJoin(PathJoin(userdata, name), "config"), "grid")
  }

  /** The grid directories of the profiles among `names`, in order. */
  function GridDirs(fs: Fs, userdata: Path, names: seq<string>): seq<Path> {
    if names == [] then []
    else
      (if IsProfile(fs, userdata, names[0]) then [GridDir(userdata, names[0])] else [])
      + GridDirs(fs, userdata, names[1..])
  }

  /**
   * What `get_grid_paths(userdata)` returns: `[]` when the path does not exist, and None when it
   * exists but is not a directory (`iterdir` raises).
   */
  function GridPaths(fs: Fs, userdata: Path): Option<seq<Path>> {
    if !Exists(fs, userdata) then Some([])
    else if !IsDir(fs, userdata) then None
    else Some(GridDirs(fs, userdata, Children(fs, userdata)))
  }

  /** `SteamPathDetector.get_grid_paths`. */
  method GetGridPaths(fs: Fs, userdata: Path) returns (r: Option<seq<Path>>)
    ensures r == GridPaths(fs, userdata)
  {
    if !Exists(fs, userdata) {
      return Some([]);
    }
    if !IsDir(fs, userdata) {
      return None;
    }
    var names := Children(fs, userdata);
    var gridPaths: seq<Path> := [];
    for i := 0 to |names|
      invariant gridPaths + GridDirs(fs, userdata, names[i..]) == GridDirs(fs, userdata, names)
    {
      assert names[i..][1..] == names[i + 1..];
      if IsProfile(fs, userdata, names[i]) {
        gridPaths := gridPaths + [GridDir(userdata, names[i])];
      }
    }
    assert GridDirs(fs, userdata, names[|names|..]) == [];
    assert gridPaths + [] == gridPaths;
    assert gridPaths == GridDirs(fs, userdata, names);
    assert IsDir(fs, userdata);
    return Some(gridPaths);
  }

  /**
   * A path is among the grid directories exactly when it is the `config/grid` directory of a
   * listed profile, and there is one per profile.
   */
  lemma {:induction false} GridDirsMembers(fs: Fs, userdata: Path, names: seq<string>)
    ensures forall p :: p in GridDirs(fs, userdata, names) <==>
      exists i :: 0 <= i < |names| && IsProfile(fs, userdata, names[i]) && p == GridDir(userdata, names[i])
    ensures |GridDirs(fs, userdata, names)| <= |names|
  {
    if names != [] {
      GridDirsMembers(fs, userdata, names[1..]);
      forall p ensures p in GridDirs(fs, userdata, names) <==>
        exists i :: 0 <= i < |names| && IsProfile(fs, userdata, names[i]) && p == GridDir(userdata, names[i])
      {
        if p in GridDirs(fs, userdata, names[1..]) {
          var i :| 0 <= i < |names[1..]| && IsProfile(fs, userdata, names[1..][i]) && p == GridDir(userdata, names[1..][i]);
          assert names[i + 1] == names[1..][i];
        }
        if exists i :: 0 <= i < |names| && IsProfile(fs, userdata, names[i]) && p == GridDir(userdata, names[i]) {
          var i :| 0 <= i < |names| && IsProfile(fs, userdata, names[i]) && p == GridDir(userdata, names[i]);
          if i > 0 {
            assert names[1..][i - 1] == names[i];
          }
        }
      }
    }
  }

  /**
   * The first grid directory is the one of the first listed profile: `m` is a profile and no
   * name before it is.
   */
  lemma {:induction false} GridDirsFirst(fs: Fs, userdata: Path, names: seq<string>, m: nat)
    requires m < |names| && IsProfile(fs, userdata, names[m])
    requires forall k :: 0 <= k < m ==> !IsProfile(fs, userdata, names[k])
    ensures GridDirs(fs, userdata, names) != []
    ensures GridDirs(fs, userdata, names)[0] == GridDir(userdata, names[m])
  {
    if m > 0 {
      assert !IsProfile(fs, userdata, names[0]);
      forall k | 0 <= k < m - 1 ensures !IsProfile(fs, userdata, names[1..][k]) {
        assert names[1..][k] == names[k + 1];
      }
      GridDirsFirst(fs, userdata, names[1..], m - 1);
    }
  }

  /** Without a listed profile there is no grid directory. */
  lemma {:induction false} GridDirsNone(fs: Fs, userdata: Path, names: seq<string>)
    requires forall k :: 0 <= k < |names| ==> !IsProfile(fs, userdata, names[k])
    ensures GridDirs(fs, userdata, names) == []
  {
    if names != [] {
      forall k | 0 <= k < |names| - 1 ensures !IsProfile(fs, userdata, names[1..][k]) {
        assert names[1..][k] == names[k + 1];
      }
      GridDirsNone(fs, userdata, names[1..]);
    }
  }

  /** A profile's grid directory is `<userdata>/<profile>/config/grid`. */
  lemma GridDirShape(userdata: Path, name: string)
    ensures GridDir(userdata, name) == userdata + "/" + name + "/config/grid"
  {
    assert PathJoin(PathJoin(userdata, name), "config") == userdata + "/" + name + "/config";
  }

  /** Profiles "1" and "2" give their two grid directories; "backup" is not a profile. */
  lemma GridPathsExample(fs: Fs)
    requires "u" in fs.dirs && fs.listing == map["u" := ["1", "backup", "2"]]
    requires forall n :: n in ["1", "backup", "2"] ==> PathJoin("u", n) in fs.dirs
    ensures GridPaths(fs, "u") == Some([GridDir("u", "1"), GridDir("u", "2")])
  {
    assert !IsDigits("backup") by {
      assert !IsDigit("backup"[0]);
    }
    assert IsDigits("1") && IsDigits("2");
    var names := ["1", "backup", "2"];
    assert IsProfile(fs, "u", "1") && IsProfile(fs, "u", "2") && !IsProfile(fs, "u", "backup");
    assert Children(fs, "u") == names;
    assert names[1..] == ["backup", "2"] && names[1..][1..] == ["2"] && names[1..][1..][1..] == [];
    assert GridDirs(fs, "u", names[1..][1..]) == [GridDir("u", "2")];
    assert GridDirs(fs, "u", names[1..]) == [GridDir("u", "2")];
    assert GridDirs(fs, "u", names) == [GridDir("u", "1")] + [GridDir("u", "2")];
    assert Exists(fs, "u") && IsDir(fs, "u");
    assert GridPaths(fs, "u") == Some(GridDirs(fs, "u", names));
    assert [GridDir("u", "1")] + [GridDir("u", "2")] == [GridDir("u", "1"), GridDir("u", "2")];
  }
}
