/**
 * `GameScanner`: the catalog of games.  Steam games come from the `appmanifest_*.acf` files of
 * every library listed in `libraryfolders.vdf`; non-Steam games come from the `shortcuts.vdf`
 * of every profile under `userdata`, each identified by the grid ID derived from its executable
 * and name.  The file system is a value; parsing goes through the two KeyValues parsers.
 */
module GameScanner {
  import opened Wrappers
  import opened Text
  import opened Bytes
  import opened FileSystem
  import opened VdfValue
  import opened VdfText
  import opened VdfBinary
  import opened Crc32
  import opened SteamPaths

  /** `DetectedGame`. */
  datatype DetectedGame = DetectedGame(
    appId: string,
    name: string,
    isSteam: bool,
    installPath: Option<Path>,
    iconPath: Option<Path>,
    userId: Option<string>,
    realId: Option<string>)

  /** One step of a loop that appends `x` to `acc` while `rest` is left of what remained. */
  lemma AppendStep<T>(acc: seq<T>, x: seq<T>, remaining: seq<T>, rest: seq<T>, all: seq<T>)
    requires acc + remaining == all && remaining == x + rest
    ensures (acc + x) + rest == all
  {
    assert (acc + x) + rest == acc + (x + rest);
  }

  lemma InAppend<T>(x: T, a: seq<T>, b: seq<T>)
    requires x in a + b
    ensures x in a || x in b
  {
    var i :| 0 <= i < |a + b| && (a + b)[i] == x;
    if i < |a| {
      assert a[i] == x;
    } else {
      assert b[i - |a|] == x;
    }
  }

  // ---------------------------------------------------------------------------------------
  // The grid ID of a non-Steam game

  const TwoTo32: nat := 0x1_0000_0000
  const TwoTo63: nat := 0x8000_0000_0000_0000
  const TwoTo64: nat := 0x1_0000_0000_0000_0000

  /** `((crc | 0x80000000) << 32) | 0x02000000`. */
  function GridIdValue(crc: bv32): nat {
    ((((crc | 0x8000_0000) as bv64) << 32) | 0x0200_0000) as nat
  }

  /**
   * `GameScanner._calculate_grid_id`: a missing executable or name counts as "".  The two come
   * from `shortcuts.vdf` as the binary reader gives them, one character per stored byte, so the
   * bytes hashed are the stored bytes: what the source's `encode('utf-8')` gives back after
   * decoding them, whenever they are valid UTF-8.
   */
  function CalculateGridId(exe: Option<string>, name: Option<string>): string {
    Decimal(GridIdValue(Crc32.Crc32(ByteString(exe.GetOr("") + name.GetOr("")))))
  }

  /** The ID of a shortcut is computed from the bytes of its executable and name as stored. */
  lemma GridIdOfStoredBytes(exe: seq<byte>, name: seq<byte>)
    ensures CalculateGridId(Some(Latin1(exe)), Some(Latin1(name))) == Decimal(GridIdValue(Crc32.Crc32(exe + name)))
  {
    ByteStringAppend(Latin1(exe), Latin1(name));
    ByteStringLatin1(exe);
    ByteStringLatin1(name);
  }

  /** For ASCII text the bytes hashed are `(exe + name).encode('utf-8')`. */
  lemma GridIdAscii(exe: string, name: string)
    requires IsAscii(exe + name)
    ensures CalculateGridId(Some(exe), Some(name)) == Decimal(GridIdValue(Crc32.Crc32(Utf8(exe + name))))
  {
    Utf8Ascii(exe + name);
  }

  /** A grid ID: the decimal string of a 64-bit number with bit 63 set and low half 0x02000000. */
  predicate IsGridId(s: string) {
    && IsDigits(s)
    && TwoTo63 <= DecimalValue(s) < TwoTo64
    && DecimalValue(s) % TwoTo32 == 0x0200_0000
  }

  /**
   * The ID's high 32 bits are the CRC with bit 31 set and its low 32 bits are 0x02000000, so the
   * number lies in [2^63, 2^64).
   */
  lemma GridIdValueRange(crc: bv32)
    ensures GridIdValue(crc) / TwoTo32 == (crc | 0x8000_0000) as nat
    ensures GridIdValue(crc) % TwoTo32 == 0x0200_0000
    ensures TwoTo63 <= GridIdValue(crc) < TwoTo64
  {
    assert GridIdValue(crc) == ((crc | 0x8000_0000) as nat) * TwoTo32 + 0x0200_0000;
    assert 0x8000_0000 <= (crc | 0x8000_0000) as nat < TwoTo32;
  }

  /** Every grid ID is a decimal string whose number has that shape. */
  lemma GridIdShape(exe: Option<string>, name: Option<string>)
    ensures IsGridId(CalculateGridId(exe, name))
  {
    var v := GridIdValue(Crc32.Crc32(ByteString(exe.GetOr("") + name.GetOr(""))));
    GridIdValueRange(Crc32.Crc32(ByteString(exe.GetOr("") + name.GetOr(""))));
    DecimalRoundTrip(v);
  }

  /** The ID depends only on the concatenation: ("ab", "c") and ("a", "bc") share one. */
  lemma GridIdOfConcatenation(exe1: string, name1: string, exe2: string, name2: string)
    requires exe1 + name1 == exe2 + name2
    ensures CalculateGridId(Some(exe1), Some(name1)) == CalculateGridId(Some(exe2), Some(name2))
  {
  }

  /** An absent value and "" give the same ID. */
  lemma GridIdAbsentIsEmpty(exe: Option<string>, name: Option<string>)
    ensures CalculateGridId(None, name) == CalculateGridId(Some(""), name)
    ensures CalculateGridId(exe, None) == CalculateGridId(exe, Some(""))
  {
  }

  /** With no executable and no name the CRC is 0 and the ID is 2^63 + 0x02000000. */
  lemma GridIdOfNothing()
    ensures CalculateGridId(None, None) == "9223372036888330240"
  {
    Crc32Empty();
    assert ByteString("" + "") == [];
    assert GridIdValue(0) == 9223372036888330240;
    DecimalOfEmptyId();
  }

  lemma DecimalOfEmptyIdHead()
    ensures Decimal(922337203) == "922337203"
  {
    assert Decimal(9) == "9";
    assert Decimal(92) == "92";
    assert Decimal(922) == "922";
    assert Decimal(9223) == "9223";
    assert Decimal(92233) == "92233";
    assert Decimal(922337) == "922337";
    assert Decimal(9223372) == "9223372";
    assert Decimal(92233720) == "92233720";
    assert Decimal(922337203) == "922337203";
  }

  lemma DecimalOfEmptyId()
    ensures Decimal(9223372036888330240) == "9223372036888330240"
  {
    DecimalOfEmptyIdHead();
    assert Decimal(9223372036) == "9223372036";
    assert Decimal(92233720368) == "92233720368";
    assert Decimal(922337203688) == "922337203688";
    assert Decimal(9223372036888) == "9223372036888";
    assert Decimal(92233720368883) == "92233720368883";
    assert Decimal(922337203688833) == "922337203688833";
    assert Decimal(9223372036888330) == "9223372036888330";
    assert Decimal(92233720368883302) == "92233720368883302";
    assert Decimal(922337203688833024) == "922337203688833024";
    assert Decimal(9223372036888330240) == "9223372036888330240";
  }

  // ---------------------------------------------------------------------------------------
  // Steam games from app manifests

  /** `glob("appmanifest_*.acf")` on one name. */
  predicate IsManifestName(name: string) {
    |name| >= 16 && name[..12] == "appmanifest_" && name[|name| - 4..] == ".acf"
  }

  /**
   * The game an `AppState` map describes, when its `appid` and `name` are truthy; None also
   * when building it raises (a non-string `installdir` cannot be joined to a path).
   */
  function GameOfAppState(steamapps: Path, a: Entries): Option<DetectedGame> {
    if !(TruthyGet(a, "appid") && TruthyGet(a, "name")) then None
    else
      var appid := Get(a, "appid").value;
      var name := Get(a, "name").value;
      var dir := Get(a, "installdir");
      if !appid.VStr? || !name.VStr? then None
      else if TruthyGet(a, "installdir") && !dir.value.VStr? then None
      else
        var installPath :=
          if TruthyGet(a, "installdir") then Some(PathJoin(PathJoin(steamapps, "common"), dir.value.s)) else None;
        Some(DetectedGame(appid.s, name.s, true, installPath, None, None, Some(appid.s)))
  }

  /** One manifest's root: `data.get("AppState", {})`; a string there has no `get` and raises. */
  function GameOfManifest(steamapps: Path, data: Entries): Option<DetectedGame> {
    match Get(data, "AppState")
    case None => None
    case Some(VMap(a)) => GameOfAppState(steamapps, a)
    case Some(_) => None
  }

  /** One manifest file: None when it cannot be read or parsed, or describes no game. */
  function ManifestFile(fs: Fs, steamapps: Path, name: string): Option<DetectedGame> {
    var path := PathJoin(steamapps, name);
    if path !in fs.files then None
    else
      match Parsed(fs.files[path].text)
      case None => None
      case Some(data) => GameOfManifest(steamapps, data)
  }

  /** The games of the manifests among `names`, in order. */
  function ManifestGames(fs: Fs, steamapps: Path, names: seq<string>): seq<DetectedGame> {
    if names == [] then []
    else
      var g := ManifestEntry(fs, steamapps, names[0]);
      (if g.Some? then [g.value] else []) + ManifestGames(fs, steamapps, names[1..])
  }

  /** The game of the directory entry `name`: None unless it is a manifest describing one. */
  function ManifestEntry(fs: Fs, steamapps: Path, name: string): Option<DetectedGame> {
    if IsManifestName(name) then ManifestFile(fs, steamapps, name) else None
  }

  /** What `_scan_dir_for_manifests(steamapps)` returns. */
  function ManifestScan(fs: Fs, steamapps: Path): seq<DetectedGame> {
    if !Exists(fs, steamapps) then [] else ManifestGames(fs, steamapps, Children(fs, steamapps))
  }

  /** `GameScanner._scan_dir_for_manifests`: a manifest that raises is skipped. */
  method ScanDirForManifests(fs: Fs, steamapps: Path) returns (results: seq<DetectedGame>)
    ensures results == ManifestScan(fs, steamapps)
  {
    if !Exists(fs, steamapps) {
      return [];
    }
    var names := Children(fs, steamapps);
    results := [];
    for i := 0 to |names|
      invariant results + ManifestGames(fs, steamapps, names[i..]) == ManifestGames(fs, steamapps, names)
    {
      var game := ReadManifest(fs, steamapps, names[i]);
      ManifestGamesStep(fs, steamapps, names, i);
      var found := if game.Some? then [game.value] else [];
      AppendStep(results, found, ManifestGames(fs, steamapps, names[i..]),
                 ManifestGames(fs, steamapps, names[i + 1..]), ManifestGames(fs, steamapps, names));
      results := results + found;
    }
    assert ManifestGames(fs, steamapps, names[|names|..]) == [];
    assert results + [] == results;
  }

  lemma ManifestGamesStep(fs: Fs, steamapps: Path, names: seq<string>, i: nat)
    requires i < |names|
    ensures var g := ManifestEntry(fs, steamapps, names[i]);
      ManifestGames(fs, steamapps, names[i..]) ==
        (if g.Some? then [g.value] else []) + ManifestGames(fs, steamapps, names[i + 1..])
  {
    assert names[i..][0] == names[i] && names[i..][1..] == names[i + 1..];
  }

  /** The body of the loop of `_scan_dir_for_manifests`: the game of one directory entry. */
  method ReadManifest(fs: Fs, steamapps: Path, name: string) returns (game: Option<DetectedGame>)
    ensures game == ManifestEntry(fs, steamapps, name)
  {
    if !IsManifestName(name) {
      return None;
    }
    var path := PathJoin(steamapps, name);
    if path !in fs.files {
      return None;
    }
    var data := ParseText(fs.files[path].text);
    if data.None? {
      return None;
    }
    game := GameOfManifest(steamapps, data.value);
  }

  /** A Steam game: `app_id == real_id`, both non-empty, with a name and no profile. */
  predicate IsSteamGame(g: DetectedGame) {
    g.isSteam && g.appId != "" && g.realId == Some(g.appId) && g.name != "" && g.userId.None?
  }

  /**
   * An `AppState` gives a game exactly when `appid` and `name` are truthy strings and a truthy
   * `installdir` is a string; the game carries `appid` as both IDs, and its install path is
   * `steamapps/common/<installdir>` when `installdir` is truthy and None otherwise.
   */
  lemma GameOfAppStateSpec(steamapps: Path, a: Entries)
    ensures var r := GameOfAppState(steamapps, a);
      && (r.Some? <==>
          && TruthyGet(a, "appid") && Get(a, "appid").value.VStr?
          && TruthyGet(a, "name") && Get(a, "name").value.VStr?
          && (TruthyGet(a, "installdir") ==> Get(a, "installdir").value.VStr?))
      && (r.Some? ==>
          && IsSteamGame(r.value)
          && r.value.appId == Get(a, "appid").value.s
          && r.value.name == Get(a, "name").value.s
          && r.value.installPath ==
             (if TruthyGet(a, "installdir")
              then Some(PathJoin(PathJoin(steamapps, "common"), Get(a, "installdir").value.s)) else None))
  {
  }

  /** The games of two runs of names are the games of each, in order. */
  lemma {:induction false} ManifestGamesAppend(fs: Fs, steamapps: Path, a: seq<string>, b: seq<string>)
    ensures ManifestGames(fs, steamapps, a + b) ==
      ManifestGames(fs, steamapps, a) + ManifestGames(fs, steamapps, b)
  {
    if a == [] {
      assert a + b == b;
    } else {
      assert (a + b)[0] == a[0] && (a + b)[1..] == a[1..] + b;
      ManifestGamesAppend(fs, steamapps, a[1..], b);
      var g := ManifestEntry(fs, steamapps, a[0]);
      var head := if g.Some? then [g.value] else [];
      assert ManifestGames(fs, steamapps, a + b) == head + ManifestGames(fs, steamapps, a[1..] + b);
      assert ManifestGames(fs, steamapps, a) == head + ManifestGames(fs, steamapps, a[1..]);
      AppendStep(head, ManifestGames(fs, steamapps, a[1..]), ManifestGames(fs, steamapps, a[1..] + b),
                 ManifestGames(fs, steamapps, b), ManifestGames(fs, steamapps, a + b));
    }
  }

  /**
   * A manifest that fails (unreadable, raising, or describing no game) only drops itself: the
   * games of the names around it are all returned.
   */
  lemma FailingManifestSkipped(fs: Fs, steamapps: Path, names: seq<string>, k: nat)
    requires k < |names| && ManifestEntry(fs, steamapps, names[k]).None?
    ensures ManifestGames(fs, steamapps, names) ==
      ManifestGames(fs, steamapps, names[..k]) + ManifestGames(fs, steamapps, names[k + 1..])
  {
    assert names == names[..k] + names[k..];
    ManifestGamesAppend(fs, steamapps, names[..k], names[k..]);
    ManifestGamesStep(fs, steamapps, names, k);
    assert [] + ManifestGames(fs, steamapps, names[k + 1..]) == ManifestGames(fs, steamapps, names[k + 1..]);
  }

  lemma ManifestEntryIsSteam(fs: Fs, steamapps: Path, name: string)
    ensures ManifestEntry(fs, steamapps, name).Some? ==> IsSteamGame(ManifestEntry(fs, steamapps, name).value)
  {
    if IsManifestName(name) {
      var path := PathJoin(steamapps, name);
      if path in fs.files && Parsed(fs.files[path].text).Some? {
        var data := Parsed(fs.files[path].text).value;
        if Get(data, "AppState").Some? && Get(data, "AppState").value.VMap? {
          GameOfAppStateSpec(steamapps, Get(data, "AppState").value.entries);
        }
      }
    }
  }

  lemma {:induction false} ManifestGamesAreSteam(fs: Fs, steamapps: Path, names: seq<string>)
    ensures forall g :: g in ManifestGames(fs, steamapps, names) ==> IsSteamGame(g)
  {
    if names != [] {
      ManifestGamesAreSteam(fs, steamapps, names[1..]);
      ManifestEntryIsSteam(fs, steamapps, names[0]);
      var e := ManifestEntry(fs, steamapps, names[0]);
      var head := if e.Some? then [e.value] else [];
      var tail := ManifestGames(fs, steamapps, names[1..]);
      assert ManifestGames(fs, steamapps, names) == head + tail;
      forall g | g in head + tail ensures IsSteamGame(g) {
        InAppend(g, head, tail);
      }
    }
  }

  lemma ManifestScanIsSteam(fs: Fs, steamapps: Path)
    ensures forall g :: g in ManifestScan(fs, steamapps) ==> IsSteamGame(g)
  {
    ManifestGamesAreSteam(fs, steamapps, Children(fs, steamapps));
  }

  // ---------------------------------------------------------------------------------------
  // Libraries

  function PrependGames(games: seq<DetectedGame>, rest: Option<seq<DetectedGame>>): Option<seq<DetectedGame>> {
    match rest
    case None => None
    case Some(more) => Some(games + more)
  }

  lemma PrependGamesLaws(a: seq<DetectedGame>, b: seq<DetectedGame>, rest: Option<seq<DetectedGame>>)
    ensures PrependGames([], rest) == rest
    ensures PrependGames(a, PrependGames(b, rest)) == PrependGames(a + b, rest)
  {
    if rest.Some? {
      assert [] + rest.value == rest.value;
      assert a + (b + rest.value) == (a + b) + rest.value;
    }
  }

  /**
   * The games of the libraries in `libs`, in order: a library that is not a map or has no
   * truthy `path` is skipped; a non-string `path` raises (None).
   */
  function LibraryGames(fs: Fs, libs: Entries): Option<seq<DetectedGame>> {
    if libs == [] then Some([])
    else
      var lib := libs[0].1;
      if !lib.VMap? || !TruthyGet(lib.entries, "path") then LibraryGames(fs, libs[1..])
      else
        var path := Get(lib.entries, "path").value;
        if !path.VStr? then None
        else PrependGames(ManifestScan(fs, PathJoin(path.s, "steamapps")), LibraryGames(fs, libs[1..]))
  }

  /** What `get_installed_games()` returns for the scanner's `steam_path`; None when it raises. */
  function InstalledGames(fs: Fs, steamPath: Option<Path>): Option<seq<DetectedGame>> {
    if steamPath.None? then Some([])
    else
      var steamapps := PathJoin(steamPath.value, "steamapps");
      var vdf := PathJoin(steamapps, "libraryfolders.vdf");
      if !Exists(fs, vdf) then Some(ManifestScan(fs, steamapps))
      else if vdf !in fs.files then None
      else LibraryFileGames(fs, fs.files[vdf].text)
  }

  /** The games of the libraries a `libraryfolders.vdf` text lists. */
  function LibraryFileGames(fs: Fs, text: string): Option<seq<DetectedGame>> {
    match Parsed(text)
    case None => None
    case Some(data) =>
      match Get(data, "libraryfolders")
      case None => Some([])
      case Some(VMap(libs)) => LibraryGames(fs, libs)
      case Some(_) => None
  }

  /** `GameScanner.get_installed_games`. */
  method GetInstalledGames(fs: Fs, steamPath: Option<Path>) returns (r: Option<seq<DetectedGame>>)
    ensures r == InstalledGames(fs, steamPath)
  {
    if steamPath.None? {
      return Some([]);
    }
    var steamapps := PathJoin(steamPath.value, "steamapps");
    var vdf := PathJoin(steamapps, "libraryfolders.vdf");
    if !Exists(fs, vdf) {
      var games := ScanDirForManifests(fs, steamapps);
      return Some(games);
    }
    if vdf !in fs.files {
      return None;
    }
    var data := ParseText(fs.files[vdf].text);
    if data.None? {
      return None;
    }
    var root := Get(data.value, "libraryfolders");
    if root.None? {
      return Some([]);
    }
    if !root.value.VMap? {
      return None;
    }
    r := ScanLibraries(fs, root.value.entries);
  }

  /** The loop of `get_installed_games` over the children of `libraryfolders`. */
  method ScanLibraries(fs: Fs, libs: Entries) returns (r: Option<seq<DetectedGame>>)
    ensures r == LibraryGames(fs, libs)
  {
    var games: seq<DetectedGame> := [];
    PrependGamesLaws([], [], LibraryGames(fs, libs));
    for i := 0 to |libs|
      invariant PrependGames(games, LibraryGames(fs, libs[i..])) == LibraryGames(fs, libs)
    {
      assert libs[i..][1..] == libs[i + 1..];
      var lib := libs[i].1;
      if !lib.VMap? || !TruthyGet(lib.entries, "path") {
        continue;
      }
      var path := Get(lib.entries, "path").value;
      if !path.VStr? {
        return None;
      }
      var found := ScanDirForManifests(fs, PathJoin(path.s, "steamapps"));
      PrependGamesLaws(games, found, LibraryGames(fs, libs[i + 1..]));
      games := games + found;
    }
    assert LibraryGames(fs, libs[|libs|..]) == Some([]);
    assert games + [] == games;
    return Some(games);
  }

  lemma {:induction false} LibraryGamesAreSteam(fs: Fs, libs: Entries)
    ensures LibraryGames(fs, libs).Some? ==> forall g :: g in LibraryGames(fs, libs).value ==> IsSteamGame(g)
  {
    if libs != [] {
      LibraryGamesAreSteam(fs, libs[1..]);
      var lib := libs[0].1;
      if lib.VMap? && TruthyGet(lib.entries, "path") && Get(lib.entries, "path").value.VStr? {
        var scanned := ManifestScan(fs, PathJoin(Get(lib.entries, "path").value.s, "steamapps"));
        ManifestScanIsSteam(fs, PathJoin(Get(lib.entries, "path").value.s, "steamapps"));
        var rest := LibraryGames(fs, libs[1..]);
        if rest.Some? {
          assert LibraryGames(fs, libs).value == scanned + rest.value;
          forall g | g in scanned + rest.value ensures IsSteamGame(g) {
            InAppend(g, scanned, rest.value);
          }
        }
      }
    }
  }

  /** Every installed game found is a Steam game whose `real_id` is its `app_id`. */
  lemma InstalledGamesAreSteam(fs: Fs, steamPath: Option<Path>)
    ensures InstalledGames(fs, steamPath).Some? ==>
      forall g :: g in InstalledGames(fs, steamPath).value ==> IsSteamGame(g)
  {
    if steamPath.Some? {
      var steamapps := PathJoin(steamPath.value, "steamapps");
      var vdf := PathJoin(steamapps, "libraryfolders.vdf");
      if !Exists(fs, vdf) {
        ManifestScanIsSteam(fs, steamapps);
      } else if vdf in fs.files {
        LibraryFileGamesAreSteam(fs, fs.files[vdf].text);
      }
    }
  }

  lemma LibraryFileGamesAreSteam(fs: Fs, text: string)
    ensures LibraryFileGames(fs, text).Some? ==>
      forall g :: g in LibraryFileGames(fs, text).value ==> IsSteamGame(g)
  {
    var data := Parsed(text);
    if data.None? {
      assert LibraryFileGames(fs, text) == None;
    } else {
      var root := Get(data.value, "libraryfolders");
      if root.None? {
        assert LibraryFileGames(fs, text) == Some([]);
      } else if root.value.VMap? {
        LibraryGamesAreSteam(fs, root.value.entries);
        assert LibraryFileGames(fs, text) == LibraryGames(fs, root.value.entries);
      } else {
        assert LibraryFileGames(fs, text) == None;
      }
    }
  }

  /** When no library raises, every game of a library whose `path` is a string is among those returned. */
  lemma {:induction false} LibraryGamesInclude(fs: Fs, libs: Entries, k: nat)
    requires k < |libs| && libs[k].1.VMap? && TruthyGet(libs[k].1.entries, "path")
    requires Get(libs[k].1.entries, "path").value.VStr?
    requires LibraryGames(fs, libs).Some?
    ensures var lib := PathJoin(Get(libs[k].1.entries, "path").value.s, "steamapps");
      forall g :: g in ManifestScan(fs, lib) ==> g in LibraryGames(fs, libs).value
    decreases k
  {
    if k > 0 {
      LibraryGamesInclude(fs, libs[1..], k - 1);
      assert libs[1..][k - 1] == libs[k];
    }
  }

  // ---------------------------------------------------------------------------------------
  // Non-Steam games from shortcuts

  datatype ShortcutOutcome = Skipped | Found(game: DetectedGame) | Raises

  /**
   * One shortcut, from its name (`AppName`, else `appname`) and executable (`Exe`, else `exe`):
   * skipped unless the name is truthy; raises when the name, or a truthy executable, is not a
   * string, since the two are concatenated.
   */
  function ShortcutOf(name: Option<Value>, exe: Option<Value>, userId: string): ShortcutOutcome {
    if !(name.Some? && Truthy(name.value)) then Skipped
    else if !name.value.VStr? then Raises
    else if exe.Some? && Truthy(exe.value) && !exe.value.VStr? then Raises
    else
      var exePath := if exe.Some? && Truthy(exe.value) then Some(exe.value.s) else None;
      Found(DetectedGame(CalculateGridId(exePath, Some(name.value.s)), name.value.s, false,
                         exePath, None, Some(userId), None))
  }

  /** One child of the `shortcuts` map: skipped unless it is a map; any stored `appid` is not read. */
  function ShortcutEntry(entry: Value, userId: string): ShortcutOutcome {
    if !entry.VMap? then Skipped
    else ShortcutOf(OrGet(entry.entries, "AppName", "appname"), OrGet(entry.entries, "Exe", "exe"), userId)
  }

  /** The games of `shortcuts` children, stopping at the first that raises. */
  function ShortcutGames(entries: Entries, userId: string): seq<DetectedGame> {
    if entries == [] then []
    else
      match ShortcutEntry(entries[0].1, userId)
      case Raises => []
      case Skipped => ShortcutGames(entries[1..], userId)
      case Found(g) => [g] + ShortcutGames(entries[1..], userId)
  }

  /** What `_parse_shortcuts(path, user_id)` returns. */
  function ShortcutsFile(fs: Fs, path: Path, userId: string): seq<DetectedGame> {
    if path !in fs.files then []
    else
      match Get(BinaryParsed(fs.files[path].bytes), "shortcuts")
      case Some(VMap(entries)) => ShortcutGames(entries, userId)
      case _ => []
  }

  /** `GameScanner._parse_shortcuts`: an exception ends the loop, keeping what was found. */
  method ParseShortcuts(fs: Fs, path: Path, userId: string) returns (results: seq<DetectedGame>)
    ensures results == ShortcutsFile(fs, path, userId)
  {
    results := [];
    if path !in fs.files {
      return;
    }
    var data := ParseBinary(fs.files[path].bytes);
    var shortcuts := Get(data, "shortcuts");
    if shortcuts.None? || !shortcuts.value.VMap? {
      return;
    }
    results := CollectShortcuts(shortcuts.value.entries, userId);
  }

  /** The loop of `_parse_shortcuts` over the children of `shortcuts`. */
  method CollectShortcuts(entries: Entries, userId: string) returns (results: seq<DetectedGame>)
    ensures results == ShortcutGames(entries, userId)
  {
    results := [];
    for i := 0 to |entries|
      invariant results + ShortcutGames(entries[i..], userId) == ShortcutGames(entries, userId)
    {
      var outcome := ShortcutEntry(entries[i].1, userId);
      ShortcutGamesStep(entries, userId, i);
      if outcome.Raises? {
        assert results + [] == results;
        return;
      }
      var found := if outcome.Found? then [outcome.game] else [];
      AppendStep(results, found, ShortcutGames(entries[i..], userId), ShortcutGames(entries[i + 1..], userId),
                 ShortcutGames(entries, userId));
      results := results + found;
    }
    assert ShortcutGames(entries[|entries|..], userId) == [];
    assert results + [] == results;
  }

  lemma ShortcutGamesStep(entries: Entries, userId: string, i: nat)
    requires i < |entries|
    ensures var o := ShortcutEntry(entries[i].1, userId);
      ShortcutGames(entries[i..], userId) ==
        if o.Raises? then []
        else (if o.Found? then [o.game] else []) + ShortcutGames(entries[i + 1..], userId)
  {
    assert entries[i..][0] == entries[i] && entries[i..][1..] == entries[i + 1..];
    if ShortcutEntry(entries[i].1, userId).Skipped? {
      assert [] + ShortcutGames(entries[i + 1..], userId) == ShortcutGames(entries[i + 1..], userId);
    }
  }

  function ShortcutsPath(userdata: Path, name: string): Path {
    PathJoin(PathJoin(PathJoin(userdata, name), "config"), "shortcuts.vdf")
  }

  /** The shortcuts of the profiles among `names`, in order. */
  function ProfileGames(fs: Fs, userdata: Path, names: seq<string>): seq<DetectedGame> {
    if names == [] then []
    else ProfileShortcuts(fs, userdata, names[0]) + ProfileGames(fs, userdata, names[1..])
  }

  /** The shortcuts of `userdata/<n>` when that is a profile with a `shortcuts.vdf`. */
  function ProfileShortcuts(fs: Fs, userdata: Path, n: string): seq<DetectedGame> {
    if IsProfile(fs, userdata, n) && Exists(fs, ShortcutsPath(userdata, n))
    then ShortcutsFile(fs, ShortcutsPath(userdata, n), n) else []
  }

  /** What `get_non_steam_games()` returns; None when `userdata` is not a directory. */
  function NonSteamGames(fs: Fs, steamPath: Option<Path>): Option<seq<DetectedGame>> {
    if steamPath.None? then Some([])
    else
      var userdata := PathJoin(steamPath.value, "userdata");
      if !Exists(fs, userdata) then Some([])
      else if !IsDir(fs, userdata) then None
      else Some(ProfileGames(fs, userdata, Children(fs, userdata)))
  }

  /** `GameScanner.get_non_steam_games`. */
  method GetNonSteamGames(fs: Fs, steamPath: Option<Path>) returns (r: Option<seq<DetectedGame>>)
    ensures r == NonSteamGames(fs, steamPath)
  {
    if steamPath.None? {
      return Some([]);
    }
    var userdata := PathJoin(steamPath.value, "userdata");
    if !Exists(fs, userdata) {
      return Some([]);
    }
    if !IsDir(fs, userdata) {
      return None;
    }
    var games := ScanProfiles(fs, userdata, Children(fs, userdata));
    return Some(games);
  }

  /** The loop of `get_non_steam_games` over the names under `userdata`. */
  method ScanProfiles(fs: Fs, userdata: Path, names: seq<string>) returns (games: seq<DetectedGame>)
    ensures games == ProfileGames(fs, userdata, names)
  {
    games := [];
    for i := 0 to |names|
      invariant games + ProfileGames(fs, userdata, names[i..]) == ProfileGames(fs, userdata, names)
    {
      var found := ReadProfile(fs, userdata, names[i]);
      ProfileGamesStep(fs, userdata, names, i);
      AppendStep(games, found, ProfileGames(fs, userdata, names[i..]), ProfileGames(fs, userdata, names[i + 1..]),
                 ProfileGames(fs, userdata, names));
      games := games + found;
    }
    assert ProfileGames(fs, userdata, names[|names|..]) == [];
    assert games + [] == games;
  }

  lemma ProfileGamesStep(fs: Fs, userdata: Path, names: seq<string>, i: nat)
    requires i < |names|
    ensures ProfileGames(fs, userdata, names[i..]) ==
      ProfileShortcuts(fs, userdata, names[i]) + ProfileGames(fs, userdata, names[i + 1..])
  {
    assert names[i..][0] == names[i] && names[i..][1..] == names[i + 1..];
  }

  /** The body of the loop of `get_non_steam_games`: the shortcuts of one directory entry. */
  method ReadProfile(fs: Fs, userdata: Path, name: string) returns (found: seq<DetectedGame>)
    ensures found == ProfileShortcuts(fs, userdata, name)
  {
    found := [];
    if !IsDir(fs, PathJoin(userdata, name)) || !IsDigits(name) {
      return;
    }
    var shortcuts := ShortcutsPath(userdata, name);
    if Exists(fs, shortcuts) {
      found := ParseShortcuts(fs, shortcuts, name);
    }
  }

  /**
   * A shortcut's name is `AppName`, or `appname` when `AppName` is absent or falsy; its
   * executable likewise `Exe` or `exe`, and "" when falsy; its ID is the grid ID of the two;
   * it belongs to the profile, is not a Steam game and has no `real_id`.
   */
  lemma ShortcutEntrySpec(e: Entries, userId: string)
    ensures var r := ShortcutEntry(VMap(e), userId);
      var name := if TruthyGet(e, "AppName") then Get(e, "AppName") else Get(e, "appname");
      var exe := if TruthyGet(e, "Exe") then Get(e, "Exe") else Get(e, "exe");
      && (r.Skipped? <==> !(name.Some? && Truthy(name.value)))
      && (r.Found? ==>
          && name.value.VStr? && r.game.name == name.value.s
          && r.game.appId == CalculateGridId(if exe.Some? && Truthy(exe.value) then Some(exe.value.s) else None,
                                             Some(name.value.s))
          && !r.game.isSteam && r.game.realId.None? && r.game.userId == Some(userId)
          && (r.game.installPath.Some? <==> exe.Some? && Truthy(exe.value)))
  {
  }

  /** Only the name and executable keys are read: entries agreeing on them give the same outcome. */
  lemma ShortcutReadsOnlyNameAndExe(e1: Entries, e2: Entries, userId: string)
    requires Get(e1, "AppName") == Get(e2, "AppName") && Get(e1, "appname") == Get(e2, "appname")
    requires Get(e1, "Exe") == Get(e2, "Exe") && Get(e1, "exe") == Get(e2, "exe")
    ensures ShortcutEntry(VMap(e1), userId) == ShortcutEntry(VMap(e2), userId)
  {
    assert OrGet(e1, "AppName", "appname") == OrGet(e2, "AppName", "appname");
    assert OrGet(e1, "Exe", "exe") == OrGet(e2, "Exe", "exe");
  }

  /**
   * A shortcut that raises ends the scan of its file: the games before it are kept and none
   * after it is read.
   */
  lemma {:induction false} RaisingShortcutStops(entries: Entries, userId: string, k: nat)
    requires k < |entries| && ShortcutEntry(entries[k].1, userId).Raises?
    ensures ShortcutGames(entries, userId) == ShortcutGames(entries[..k], userId)
  {
    if k == 0 {
      assert entries[..0] == [];
    } else {
      assert entries[..k][0] == entries[0];
      if !ShortcutEntry(entries[0].1, userId).Raises? {
        RaisingShortcutStops(entries[1..], userId, k - 1);
        assert entries[1..][..k - 1] == entries[..k][1..];
      }
    }
  }

  /** A non-Steam game: a shortcut of a profile, with a grid ID and no `real_id`. */
  predicate IsShortcutGame(g: DetectedGame) {
    !g.isSteam && g.realId.None? && IsGridId(g.appId) && g.name != "" && g.userId.Some?
  }

  lemma {:induction false} ShortcutGamesAreShortcuts(entries: Entries, userId: string)
    ensures forall g :: g in ShortcutGames(entries, userId) ==> IsShortcutGame(g) && g.userId == Some(userId)
  {
    if entries != [] {
      ShortcutGamesAreShortcuts(entries[1..], userId);
      var r := ShortcutEntry(entries[0].1, userId);
      if r.Found? {
        var e := entries[0].1.entries;
        var name := OrGet(e, "AppName", "appname");
        var exe := OrGet(e, "Exe", "exe");
        assert r == ShortcutOf(name, exe, userId);
        GridIdShape(if exe.Some? && Truthy(exe.value) then Some(exe.value.s) else None, Some(name.value.s));
      }
    }
  }

  lemma {:induction false} ProfileGamesAreShortcuts(fs: Fs, userdata: Path, names: seq<string>)
    ensures forall g :: g in ProfileGames(fs, userdata, names) ==>
      IsShortcutGame(g) && g.userId.value in names && IsDigits(g.userId.value)
  {
    if names != [] {
      ProfileGamesAreShortcuts(fs, userdata, names[1..]);
      var n := names[0];
      var path := ShortcutsPath(userdata, n);
      if path in fs.files {
        var s := Get(BinaryParsed(fs.files[path].bytes), "shortcuts");
        if s.Some? && s.value.VMap? {
          ShortcutGamesAreShortcuts(s.value.entries, n);
        }
      }
    }
  }

  /**
   * Every non-Steam game found belongs to a digit-named profile directory, carries a grid ID as
   * its `app_id`, and has no `real_id`.
   */
  lemma NonSteamGamesAreShortcuts(fs: Fs, steamPath: Option<Path>)
    ensures NonSteamGames(fs, steamPath).Some? ==>
      forall g :: g in NonSteamGames(fs, steamPath).value ==> IsShortcutGame(g) && IsDigits(g.userId.value)
  {
    if steamPath.Some? {
      var userdata := PathJoin(steamPath.value, "userdata");
      ProfileGamesAreShortcuts(fs, userdata, Children(fs, userdata));
    }
  }
}
