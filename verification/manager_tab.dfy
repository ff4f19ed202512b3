/**
 * The Manager tab: the table of scanned games and its filter, the details of the selected game
 * (its title, the match and download buttons, and four artwork slots that compare the art Steam
 * shows with the cached download), matching a game to a Steam app ID, and copying cached art
 * into a profile's grid folder.  The file system, the inputs that locate Steam, the search
 * dialog's answer and whether creating a folder or copying a file succeeds are parameters;
 * widgets are reduced to the values they display.
 */
module ManagerTab {
  import opened Wrappers
  import opened Text
  import opened FileSystem
  import opened SteamPaths
  import opened GameScanner
  import opened GridLayout

  /**
   * A scanned game as the tab holds it: one object shared by the game list, the table rows and
   * the selection, so that matching the selected game shows in all of them.
   */
  class GameEntry {
    var game: DetectedGame

    constructor(game: DetectedGame)
      ensures this.game == game
    {
      this.game := game;
    }
  }

  // ---------------------------------------------------------------------------------------
  // Filtering the table (`filter_games`)

  /** A game matches a lower-cased query found in its lower-cased name or in its app ID. */
  predicate Matches(g: DetectedGame, query: string) {
    Contains(Lower(g.name), query) || Contains(g.appId, query)
  }

  /** The rows shown for a lower-cased query: the matching games, in list order. */
  function Shown(games: seq<GameEntry>, query: string): seq<GameEntry>
    reads games
  {
    if games == [] then []
    else
      var last := games[|games| - 1];
      Shown(games[..|games| - 1], query) + (if Matches(last.game, query) then [last] else [])
  }

  /** A game is shown exactly when it is in the list and matches. */
  lemma {:induction false} ShownMembers(games: seq<GameEntry>, query: string, e: GameEntry)
    ensures e in Shown(games, query) <==> e in games && Matches(e.game, query)
  {
    if games != [] {
      var init := games[..|games| - 1];
      ShownMembers(init, query, e);
      assert games == init + [games[|games| - 1]];
    }
  }

  /** Filtering a list made of two parts shows the rows of each part, in order. */
  lemma {:induction false} ShownAppend(a: seq<GameEntry>, b: seq<GameEntry>, query: string)
    ensures Shown(a + b, query) == Shown(a, query) + Shown(b, query)
  {
    if b == [] {
      assert a + b == a;
    } else {
      var init := b[..|b| - 1];
      ShownAppend(a, init, query);
      assert (a + b)[..|a + b| - 1] == a + init;
      assert (a + b)[|a + b| - 1] == b[|b| - 1];
    }
  }

  /** The empty query shows every game. */
  lemma {:induction false} ShownEmptyQuery(games: seq<GameEntry>)
    ensures Shown(games, "") == games
  {
    if games != [] {
      var init := games[..|games| - 1];
      ShownEmptyQuery(init);
      assert StartsWith(Lower(games[|games| - 1].game.name), "");
      assert games == init + [games[|games| - 1]];
    }
  }

  /** Filtering the shown rows again with the same query changes nothing. */
  lemma {:induction false} ShownIdempotent(games: seq<GameEntry>, query: string)
    ensures Shown(Shown(games, query), query) == Shown(games, query)
  {
    if games != [] {
      var init := games[..|games| - 1];
      var last := games[|games| - 1];
      var tail := if Matches(last.game, query) then [last] else [];
      ShownIdempotent(init, query);
      ShownAppend(Shown(init, query), tail, query);
      if tail != [] {
        assert tail[..0] == [];
      }
    }
  }

  // ---------------------------------------------------------------------------------------
  // The selected game's title and IDs (`load_game_details`)

  /** `game.real_id` is truthy. */
  predicate HasRealId(g: DetectedGame) {
    g.realId.Some? && g.realId.value != ""
  }

  /** The ID cached art is looked up by: the real ID when set, else the app ID. */
  function LookupId(g: DetectedGame): string {
    if HasRealId(g) then g.realId.value else g.appId
  }

  /** The title marks a match when the real ID is set and differs from the app ID. */
  predicate ShowsMatch(g: DetectedGame) {
    HasRealId(g) && g.realId.value != g.appId
  }

  function BaseTitle(g: DetectedGame): string {
    g.name + " (" + g.appId + ")"
  }

  function Title(g: DetectedGame): string {
    BaseTitle(g) + if ShowsMatch(g) then " [Matched: " + g.realId.value + "]" else ""
  }

  /**
   * The title starts with the name and app ID, and carries more exactly when the game is matched
   * to a different real ID, which it then names.
   */
  lemma TitleSpec(g: DetectedGame)
    ensures StartsWith(Title(g), BaseTitle(g))
    ensures ShowsMatch(g) <==> |Title(g)| > |BaseTitle(g)|
    ensures ShowsMatch(g) ==> Title(g)[|BaseTitle(g)|..] == " [Matched: " + g.realId.value + "]"
  {
    assert Title(g)[..|BaseTitle(g)|] == BaseTitle(g);
  }

  /** A Steam game from the scanner is looked up, and titled, by its own app ID. */
  lemma SteamGameLookup(g: DetectedGame)
    requires IsSteamGame(g)
    ensures LookupId(g) == g.appId && !ShowsMatch(g) && HasRealId(g)
  {
  }

  // ---------------------------------------------------------------------------------------
  // Artwork slots and file names

  /** A slot's title, the artwork key it shows, and the file-name suffix Steam uses for it. */
  datatype SlotKind = SlotKind(title: string, artType: string, suffix: string)

  const SlotKinds: seq<SlotKind> := [
    SlotKind("Portrait (600x900)", "library_600x900_2x", "p.jpg"),
    SlotKind("Hero Banner", "library_hero_2x", "_hero.jpg"),
    SlotKind("Logo", "logo", "_logo.png"),
    SlotKind("Header", "header", "_header.jpg")
  ]

  /** The image cache's directory (`ImageCache()` with its default). */
  const CacheDir: Path := "cache"

  /** `ImageCache.get_image_path`. */
  function CachePath(id: string, artType: string): Path {
    PathJoin(CacheDir, id + "_" + artType + ".jpg")
  }

  /** `apply_art`'s file-name map: the grid file an art type is written to, None when unmapped. */
  function ArtFileName(id: string, artType: string): Option<string> {
    if artType == "library_600x900_2x" then Some(id + "p.jpg")
    else if artType == "library_hero_2x" then Some(id + "_hero.jpg")
    else if artType == "logo" then Some(id + "_logo.png")
    else if artType == "header" then Some(id + "_header.jpg")
    else None
  }

  /**
   * The file-name map knows exactly the slots' art types, and names the file the slot's suffix
   * names.
   */
  lemma ArtFileNameSlots(id: string, artType: string)
    ensures ArtFileName(id, artType).Some? <==> exists i :: 0 <= i < |SlotKinds| && SlotKinds[i].artType == artType
    ensures forall i :: 0 <= i < |SlotKinds| && SlotKinds[i].artType == artType ==>
      ArtFileName(id, artType) == Some(id + SlotKinds[i].suffix)
  {
    if ArtFileName(id, artType).Some? {
      var i := if artType == "library_600x900_2x" then 0 else if artType == "library_hero_2x" then 1
        else if artType == "logo" then 2 else 3;
      assert SlotKinds[i].artType == artType;
    }
  }

  /**
   * An `ArtSlotWidget`: its title and art type, the ID it emits when applied, the grid file
   * Steam shows now, the cached download, whether "Apply to Steam" is enabled, and its cell.
   */
  datatype ArtSlot = ArtSlot(
    title: string,
    artType: string,
    appId: string,
    currentPath: Option<Path>,
    cachePath: Option<Path>,
    applyEnabled: bool,
    row: nat,
    col: nat)

  /** Slot `i` of the game `g` for the grid folder `target`. */
  function MakeSlot(g: DetectedGame, target: Option<Path>, fs: Fs, i: nat): ArtSlot
    requires i < |SlotKinds|
  {
    var kind := SlotKinds[i];
    var lookup := LookupId(g);
    var cache := if lookup != "" then Some(CachePath(lookup, kind.artType)) else None;
    ArtSlot(kind.title, kind.artType, lookup,
            if target.Some? then Some(PathJoin(target.value, g.appId + kind.suffix)) else None,
            cache, cache.Some? && Exists(fs, cache.value), Cell(i).0, Cell(i).1)
  }

  function Slots(g: DetectedGame, target: Option<Path>, fs: Fs): seq<ArtSlot> {
    seq(|SlotKinds|, i requires 0 <= i < |SlotKinds| => MakeSlot(g, target, fs, i))
  }

  /**
   * The four slots sit two to a row; each shows the grid file the file-name map gives for the
   * game's app ID, and the cached download of the lookup ID, which enables applying exactly
   * when it exists.
   */
  lemma SlotsSpec(g: DetectedGame, target: Option<Path>, fs: Fs, i: nat)
    requires i < |SlotKinds|
    ensures var s := Slots(g, target, fs)[i];
      && (s.row, s.col) == Cell(i)
      && s.artType == SlotKinds[i].artType
      && s.appId == LookupId(g)
      && (target.Some? <==> s.currentPath.Some?)
      && (target.Some? ==> s.currentPath == Some(PathJoin(target.value, ArtFileName(g.appId, s.artType).value)))
      && (LookupId(g) != "" ==> s.cachePath == Some(CachePath(LookupId(g), s.artType)))
      && (s.applyEnabled <==> s.cachePath.Some? && Exists(fs, s.cachePath.value))
  {
    ArtFileNameSlots(g.appId, SlotKinds[i].artType);
  }

  // ---------------------------------------------------------------------------------------
  // The grid folder (`_get_grid_target_dir`)

  /** What locates Steam: the platform, the home directory and the Windows registry's answer. */
  datatype Env = Env(platform: Platform, home: Path, registry: Option<Path>)

  /** The grid folder for a game, or `ListingFails` when listing userdata raises. */
  datatype GridTarget = ListingFails | Target(dir: Option<Path>)

  function Userdata(fs: Fs, env: Env): Option<Path> {
    UserdataPath(fs, None, "", env.platform, env.home, env.registry)
  }

  /** `game.user_id` is truthy. */
  predicate HasUserId(g: DetectedGame) {
    g.userId.Some? && g.userId.value != ""
  }

  function GridTargetDir(fs: Fs, env: Env, g: DetectedGame): GridTarget {
    var userdata := Userdata(fs, env);
    if userdata.None? then Target(None)
    else if HasUserId(g) then Target(Some(GridDir(userdata.value, g.userId.value)))
    else
      match GridPaths(fs, userdata.value)
      case None => ListingFails
      case Some(users) =>
        if users != [] then Target(Some(users[0])) else Target(Some(GridDir(userdata.value, "anonymous")))
  }

  /**
   * Without userdata there is no grid folder; a game of a profile gets that profile's folder;
   * any other game gets the folder of the first profile in listing order, or the `anonymous`
   * one when no profile is listed; listing fails exactly when userdata is not a directory and
   * the game has no profile.
   */
  lemma GridTargetDirSpec(fs: Fs, env: Env, g: DetectedGame)
    ensures var u := Userdata(fs, env);
      var r := GridTargetDir(fs, env, g);
      && (u.None? <==> r == Target(None))
      && (u.Some? && HasUserId(g) ==> r == Target(Some(GridDir(u.value, g.userId.value))))
      && (r.ListingFails? <==> u.Some? && !HasUserId(g) && !IsDir(fs, u.value))
      && (u.Some? && !HasUserId(g) && IsDir(fs, u.value) ==>
            var names := Children(fs, u.value);
            && (forall m :: 0 <= m < |names| && IsProfile(fs, u.value, names[m])
                  && (forall k :: 0 <= k < m ==> !IsProfile(fs, u.value, names[k]))
                  ==> r == Target(Some(GridDir(u.value, names[m]))))
            && ((forall n :: n in names ==> !IsProfile(fs, u.value, n))
                  ==> r == Target(Some(GridDir(u.value, "anonymous")))))
  {
    var u := Userdata(fs, env);
    UserdataPathChoice(fs, None, "", env.platform, env.home, env.registry);
    if u.Some? && !HasUserId(g) && IsDir(fs, u.value) {
      var names := Children(fs, u.value);
      var users := GridDirs(fs, u.value, names);
      forall m | 0 <= m < |names| && IsProfile(fs, u.value, names[m])
          && (forall k :: 0 <= k < m ==> !IsProfile(fs, u.value, names[k]))
        ensures GridTargetDir(fs, env, g) == Target(Some(GridDir(u.value, names[m])))
      {
        GridDirsFirst(fs, u.value, names, m);
      }
      if forall n :: n in names ==> !IsProfile(fs, u.value, n) {
        forall k | 0 <= k < |names| ensures !IsProfile(fs, u.value, names[k]) {
          assert names[k] in names;
        }
        GridDirsNone(fs, u.value, names);
      }
    }
  }

  // ---------------------------------------------------------------------------------------
  // Applying art (`apply_art`)

  datatype ApplyOutcome =
    | NoGridDir           // no grid folder could be determined: a warning
    | MkdirFailed         // creating the missing grid folder failed: a warning
    | Unmapped            // an art type without a file name: nothing happens
    | NotCached           // the cached image is missing: a warning
    | CopyFailed          // copying raised: an error
    | Applied(target: Path)

  /**
   * The outcome of applying `artType` and the file system after it, with the grid file named
   * after `fileId` and the cached image looked up by `cacheId`; `mkdirOk` and `copyOk` say
   * whether creating the grid folder and copying succeed.
   */
  function ApplyPlan(fs: Fs, targetDir: Option<Path>, fileId: string, cacheId: string, artType: string,
                     mkdirOk: bool, copyOk: bool): (ApplyOutcome, Fs)
  {
    if targetDir.None? then (NoGridDir, fs)
    else
      var dir := targetDir.value;
      if !Exists(fs, dir) && !mkdirOk then (MkdirFailed, fs)
      else
        var fs1 := if Exists(fs, dir) then fs else fs.(dirs := fs.dirs + {dir});
        var name := ArtFileName(fileId, artType);
        if name.None? then (Unmapped, fs1)
        else
          var cached := CachePath(cacheId, artType);
          if !Exists(fs1, cached) then (NotCached, fs1)
          else if !copyOk || cached !in fs1.files then (CopyFailed, fs1)
          else
            var target := PathJoin(dir, name.value);
            (Applied(target), fs1.(files := fs1.files[target := fs1.files[cached]]))
  }

  /**
   * Only a successful copy writes a file, and it writes exactly the mapped grid file with the
   * cached image's content; the grid folder exists afterwards unless there is none or creating
   * it failed, and nothing else changes.
   */
  lemma ApplyPlanSpec(fs: Fs, targetDir: Option<Path>, fileId: string, cacheId: string, artType: string,
                      mkdirOk: bool, copyOk: bool)
    ensures var (outcome, fs') := ApplyPlan(fs, targetDir, fileId, cacheId, artType, mkdirOk, copyOk);
      && (outcome == NoGridDir <==> targetDir.None?)
      && (outcome == Unmapped ==> ArtFileName(fileId, artType).None?)
      && (outcome == NotCached ==> !Exists(fs, CachePath(cacheId, artType)))
      && (!outcome.Applied? ==> fs'.files == fs.files)
      && (outcome.Applied? <==>
            && targetDir.Some? && (Exists(fs, targetDir.value) || mkdirOk)
            && ArtFileName(fileId, artType).Some? && copyOk && CachePath(cacheId, artType) in fs.files)
      && (outcome.Applied? ==>
            && outcome.target == PathJoin(targetDir.value, ArtFileName(fileId, artType).value)
            && fs'.files == fs.files[outcome.target := fs.files[CachePath(cacheId, artType)]])
      && (outcome != NoGridDir && outcome != MkdirFailed ==>
            fs'.dirs == if Exists(fs, targetDir.value) then fs.dirs else fs.dirs + {targetDir.value})
      && fs'.listing == fs.listing
  {
  }

  /** Applying the same art a second time changes nothing more. */
  lemma ApplyTwice(fs: Fs, targetDir: Option<Path>, fileId: string, cacheId: string, artType: string,
                   mkdirOk: bool, copyOk: bool)
    requires ApplyPlan(fs, targetDir, fileId, cacheId, artType, mkdirOk, copyOk).0.Applied?
    ensures var fs1 := ApplyPlan(fs, targetDir, fileId, cacheId, artType, mkdirOk, copyOk).1;
      ApplyPlan(fs1, targetDir, fileId, cacheId, artType, mkdirOk, copyOk) == ApplyPlan(fs, targetDir, fileId, cacheId, artType, mkdirOk, copyOk)
  {
    var fs1 := ApplyPlan(fs, targetDir, fileId, cacheId, artType, mkdirOk, copyOk).1;
    var dir := targetDir.value;
    var target := PathJoin(dir, ArtFileName(fileId, artType).value);
    var cached := CachePath(cacheId, artType);
    assert Exists(fs1, dir);
    assert fs1.files[cached] == fs.files[cached];
    assert fs1.files[target := fs1.files[cached]] == fs1.files;
  }

  /**
   * As written, a slot emits the lookup ID, and `apply_art` builds both the file name and the
   * cache path from it: for a game matched to a different real ID, a successful apply writes a
   * file other than the one the slot shows.
   */
  lemma AsWrittenMissesPreview(fs: Fs, target: Option<Path>, g: DetectedGame, i: nat, mkdirOk: bool, copyOk: bool)
    requires i < |SlotKinds| && ShowsMatch(g)
    ensures var slot := Slots(g, target, fs)[i];
      var outcome := ApplyPlan(fs, target, slot.appId, slot.appId, slot.artType, mkdirOk, copyOk).0;
      outcome.Applied? ==> Some(outcome.target) != slot.currentPath
  {
    var slot := Slots(g, target, fs)[i];
    var outcome := ApplyPlan(fs, target, slot.appId, slot.appId, slot.artType, mkdirOk, copyOk).0;
    SlotsSpec(g, target, fs, i);
    ApplyPlanSpec(fs, target, slot.appId, slot.appId, slot.artType, mkdirOk, copyOk);
    if outcome.Applied? {
      var suffix := SlotKinds[i].suffix;
      ArtFileNameSlots(g.appId, slot.artType);
      ArtFileNameSlots(g.realId.value, slot.artType);
      assert outcome.target == PathJoin(target.value, g.realId.value + suffix);
      assert slot.currentPath == Some(PathJoin(target.value, g.appId + suffix));
      if Some(outcome.target) == slot.currentPath {
        JoinInjective(target.value, g.realId.value + suffix, g.appId + suffix);
        SameSuffix(g.realId.value, g.appId, suffix);
      }
    }
  }

  lemma SameSuffix(a: string, b: string, suffix: string)
    requires a + suffix == b + suffix
    ensures a == b
  {
    assert a == (a + suffix)[..|a|];
  }

  /**
   * An instance: a non-Steam game "3000000000" matched to "440", with the header cached, has its
   * header slot enabled, and applying it writes `440_header.jpg` while the slot shows
   * `3000000000_header.jpg`.
   */
  lemma AsWrittenMissesPreviewExample()
    ensures var g := DetectedGame("3000000000", "Game", false, None, None, Some("1"), Some("440"));
      var dir := "u/1/config/grid";
      var fs := Fs({dir}, map[CachePath("440", "header") := FileData("", [])], map[]);
      var slot := Slots(g, Some(dir), fs)[3];
      var outcome := ApplyPlan(fs, Some(dir), slot.appId, slot.appId, slot.artType, true, true).0;
      && slot.applyEnabled
      && outcome == Applied(PathJoin(dir, "440_header.jpg"))
      && slot.currentPath == Some(PathJoin(dir, "3000000000_header.jpg"))
  {
    var g := DetectedGame("3000000000", "Game", false, None, None, Some("1"), Some("440"));
    var dir := "u/1/config/grid";
    var cached := CachePath("440", "header");
    var fs := Fs({dir}, map[cached := FileData("", [])], map[]);
    assert LookupId(g) == "440";
    var slot := Slots(g, Some(dir), fs)[3];
    assert slot == MakeSlot(g, Some(dir), fs, 3);
    assert slot.artType == "header" && slot.appId == "440";
    assert slot.cachePath == Some(cached) && Exists(fs, cached);
    assert "3000000000" + "_header.jpg" == "3000000000_header.jpg";
    assert slot.currentPath == Some(PathJoin(dir, "3000000000_header.jpg"));
    assert "440" + "_header.jpg" == "440_header.jpg";
    assert ArtFileName("440", "header") == Some("440_header.jpg");
    assert ApplyPlan(fs, Some(dir), "440", "440", "header", true, true).0 == Applied(PathJoin(dir, "440_header.jpg"));
  }

  /**
   * With the file named after the game's app ID and the image looked up by the slot's lookup ID,
   * applying a slot writes the very file the slot shows, from the very image it previews.
   */
  lemma AppliedIsPreview(fs: Fs, target: Option<Path>, g: DetectedGame, i: nat, mkdirOk: bool, copyOk: bool)
    requires i < |SlotKinds|
    ensures var slot := Slots(g, target, fs)[i];
      var outcome := ApplyPlan(fs, target, g.appId, slot.appId, slot.artType, mkdirOk, copyOk).0;
      && (outcome.Applied? ==> Some(outcome.target) == slot.currentPath)
      && (outcome.Applied? && slot.appId != "" ==> slot.cachePath == Some(CachePath(slot.appId, slot.artType)))
  {
    SlotsSpec(g, target, fs, i);
    ApplyPlanSpec(fs, target, g.appId, LookupId(g), SlotKinds[i].artType, mkdirOk, copyOk);
  }

  /** Games that are not matched to another ID are unaffected: both ways write the same file. */
  lemma UnmatchedUnaffected(fs: Fs, target: Option<Path>, g: DetectedGame, i: nat, mkdirOk: bool, copyOk: bool)
    requires i < |SlotKinds| && !ShowsMatch(g)
    ensures var slot := Slots(g, target, fs)[i];
      ApplyPlan(fs, target, slot.appId, slot.appId, slot.artType, mkdirOk, copyOk)
        == ApplyPlan(fs, target, g.appId, slot.appId, slot.artType, mkdirOk, copyOk)
  {
  }

  // ---------------------------------------------------------------------------------------
  // The tab (`ManagerTab`)

  /** The title shown before any game is selected. */
  const NoSelectionTitle: string := "Select a game to manage artwork"

  /** The slots fill a two-column grid, four of them once a game's details are shown. */
  predicate SlotsOk(slots: seq<ArtSlot>) {
    && (slots == [] || |slots| == |SlotKinds|)
    && forall i :: 0 <= i < |slots| ==> (slots[i].row, slots[i].col) == Cell(i)
  }

  class ManagerTab {
    const env: Env
    var currentGames: seq<GameEntry>
    var table: seq<GameEntry>
    var selected: GameEntry?
    var targetGridDir: Option<Path>
    var title: string
    var matchEnabled: bool
    var downloadEnabled: bool
    var downloadLabel: string
    var slots: seq<ArtSlot>

    /** Slots fill the grid in order, and only a selected game has them. */
    predicate Valid()
      reads this
    {
      SlotsOk(slots) && (slots != [] ==> selected != null)
    }

    constructor(env: Env)
      ensures Valid() && this.env == env
      ensures currentGames == [] && table == [] && selected == null && slots == []
      ensures title == NoSelectionTitle && !matchEnabled && !downloadEnabled
    {
      this.env := env;
      currentGames, table := [], [];
      selected := null;
      targetGridDir := None;
      title := NoSelectionTitle;
      matchEnabled, downloadEnabled := false, false;
      downloadLabel := "Download All Assets";
      slots := [];
    }

    /** `on_scan_finished`: the scanned games become the list, and the table shows them all. */
    method OnScanFinished(games: seq<GameEntry>)
      requires Valid()
      modifies this
      ensures Valid()
      ensures currentGames == games && table == games
      ensures selected == old(selected) && slots == old(slots) && title == old(title)
      ensures (targetGridDir, matchEnabled, downloadEnabled, downloadLabel)
        == old((targetGridDir, matchEnabled, downloadEnabled, downloadLabel))
    {
      currentGames := games;
      table := games;
    }

    /** `filter_games`: the table shows the games matching the lower-cased text, in list order. */
    method FilterGames(text: string)
      requires Valid()
      modifies this
      ensures Valid()
      ensures table == Shown(currentGames, Lower(text))
      ensures currentGames == old(currentGames) && selected == old(selected) && slots == old(slots)
      ensures title == old(title) && targetGridDir == old(targetGridDir)
    {
      var query := Lower(text);
      var filtered: seq<GameEntry> := [];
      for i := 0 to |currentGames|
        invariant unchanged(this)
        invariant filtered == Shown(currentGames[..i], query)
      {
        assert currentGames[..i + 1][..i] == currentGames[..i];
        if Matches(currentGames[i].game, query) {
          filtered := filtered + [currentGames[i]];
        }
      }
      assert currentGames[..|currentGames|] == currentGames;
      table := filtered;
    }

    /**
     * The details of `g` as `load_game_details` leaves them with the file system `fs`: its title,
     * matching enabled, downloading enabled exactly when it has a real ID, and its slots for the
     * grid folder looked up in `fs`; when that lookup raises, no slots and the folder `before`.
     */
    predicate DetailsShown(g: DetectedGame, fs: Fs, before: Option<Path>)
      reads this
    {
      && title == Title(g) && matchEnabled && downloadEnabled == HasRealId(g)
      && match GridTargetDir(fs, env, g)
         case ListingFails => slots == [] && targetGridDir == before
         case Target(dir) => targetGridDir == dir && slots == Slots(g, dir, fs)
    }

    /**
     * `load_game_details`: selects the game, shows its title, enables matching, enables
     * downloading exactly when it has a real ID, and shows its four slots for its grid folder;
     * false when listing userdata raises, which leaves the grid empty and the folder as it was.
     */
    method LoadGameDetails(entry: GameEntry, fs: Fs) returns (ok: bool)
      requires Valid()
      modifies this
      ensures Valid()
      ensures selected == entry && title == Title(entry.game) && matchEnabled
      ensures downloadEnabled == HasRealId(entry.game)
      ensures ok == GridTargetDir(fs, env, entry.game).Target?
      ensures ok ==> targetGridDir == GridTargetDir(fs, env, entry.game).dir
      ensures ok ==> slots == Slots(entry.game, targetGridDir, fs)
      ensures !ok ==> slots == [] && targetGridDir == old(targetGridDir)
      ensures currentGames == old(currentGames) && table == old(table) && downloadLabel == old(downloadLabel)
    {
      var target := GridTargetDir(fs, env, entry.game);
      ok := ShowDetails(entry, target, fs);
    }

    /** The part of `load_game_details` after the grid folder has been looked up as `target`. */
    method ShowDetails(entry: GameEntry, target: GridTarget, fs: Fs) returns (ok: bool)
      requires Valid()
      modifies this
      ensures Valid()
      ensures selected == entry && title == Title(entry.game) && matchEnabled
      ensures downloadEnabled == HasRealId(entry.game)
      ensures ok == target.Target?
      ensures ok ==> targetGridDir == target.dir && slots == Slots(entry.game, target.dir, fs)
      ensures !ok ==> slots == [] && targetGridDir == old(targetGridDir)
      ensures currentGames == old(currentGames) && table == old(table) && downloadLabel == old(downloadLabel)
    {
      var game := entry.game;
      selected := entry;
      title := Title(game);
      matchEnabled := true;
      downloadEnabled := HasRealId(game);
      slots := [];
      if target.ListingFails? {
        return false;
      }
      targetGridDir := target.dir;
      var shown := BuildSlots(game, target.dir, fs);
      slots := shown;
      return true;
    }

    /**
     * `on_apply` of slot `i`: the slot emits its lookup ID, and `apply_art` names the grid file
     * and finds the cached image by that one ID.
     */
    method ApplySlot(i: nat, fs: Fs, mkdirOk: bool, copyOk: bool) returns (outcome: ApplyOutcome, fs': Fs)
      requires Valid() && i < |slots|
      modifies this
      ensures Valid()
      ensures (outcome, fs') == ApplyPlan(fs, old(targetGridDir), old(slots[i].appId), old(slots[i].appId),
                                         old(slots[i].artType), mkdirOk, copyOk)
      ensures !outcome.Applied? ==> unchanged(this)
      ensures selected == old(selected) && currentGames == old(currentGames) && table == old(table)
    {
      outcome, fs' := ApplyArt(slots[i].appId, slots[i].appId, slots[i].artType, fs, mkdirOk, copyOk);
    }

    /**
     * Slot `i` applied as the comment in `load_game_details` intends: the grid file named after
     * the selected game's app ID, the image found by the slot's lookup ID.
     */
    method ApplySlotToShownFile(i: nat, fs: Fs, mkdirOk: bool, copyOk: bool) returns (outcome: ApplyOutcome, fs': Fs)
      requires Valid() && i < |slots|
      modifies this
      ensures Valid()
      ensures (outcome, fs') == ApplyPlan(fs, old(targetGridDir), old(selected.game.appId), old(slots[i].appId),
                                         old(slots[i].artType), mkdirOk, copyOk)
      ensures !outcome.Applied? ==> unchanged(this)
      ensures selected == old(selected) && currentGames == old(currentGames) && table == old(table)
    {
      outcome, fs' := ApplyArt(selected.game.appId, slots[i].appId, slots[i].artType, fs, mkdirOk, copyOk);
    }

    /**
     * `apply_art` for the grid file named after `fileId` and the cached image of `cacheId`:
     * after a successful copy the selected game's details are shown again from the new file
     * system.
     */
    method ApplyArt(fileId: string, cacheId: string, artType: string, fs: Fs, mkdirOk: bool, copyOk: bool)
      returns (outcome: ApplyOutcome, fs': Fs)
      requires Valid() && selected != null
      modifies this
      ensures Valid()
      ensures (outcome, fs') == ApplyPlan(fs, old(targetGridDir), fileId, cacheId, artType, mkdirOk, copyOk)
      ensures !outcome.Applied? ==> unchanged(this)
      ensures selected == old(selected) && selected.game == old(selected.game)
      ensures outcome.Applied? ==> DetailsShown(selected.game, fs', old(targetGridDir))
      ensures currentGames == old(currentGames) && table == old(table)
    {
      var plan := ApplyPlan(fs, targetGridDir, fileId, cacheId, artType, mkdirOk, copyOk);
      outcome, fs' := plan.0, plan.1;
      if outcome.Applied? {
        var _ := LoadGameDetails(selected, fs');
      }
    }

    /**
     * `match_game`: with a game selected and an app ID chosen in the search dialog, the game's
     * real ID becomes that ID, its app ID stays, and its details are shown again; otherwise
     * nothing changes.  The game is the object the list and the table share.
     */
    method MatchGame(choice: Option<string>, fs: Fs) returns (matched: bool)
      requires Valid()
      modifies this, selected
      ensures Valid()
      ensures matched <==> old(selected) != null && choice.Some?
      ensures !matched ==> unchanged(this) && (old(selected) != null ==> unchanged(old(selected)))
      ensures matched ==>
        && selected == old(selected)
        && selected.game == old(selected.game).(realId := Some(choice.value))
        && DetailsShown(selected.game, fs, old(targetGridDir))
      ensures currentGames == old(currentGames) && table == old(table)
    {
      if selected == null || choice.None? {
        return false;
      }
      var entry := selected;
      entry.game := entry.game.(realId := Some(choice.value));
      var _ := LoadGameDetails(entry, fs);
      return true;
    }

    /**
     * `download_current_game`: the real ID a download starts with, None without a selected game
     * with a real ID; starting it disables the button.
     */
    method DownloadCurrentGame() returns (downloadId: Option<string>)
      requires Valid()
      modifies this
      ensures Valid()
      ensures downloadId == if selected != null && HasRealId(selected.game) then Some(selected.game.realId.value) else None
      ensures downloadId.None? ==> unchanged(this)
      ensures downloadId.Some? ==> !downloadEnabled && downloadLabel == "Downloading..."
      ensures selected == old(selected) && slots == old(slots) && title == old(title)
    {
      if selected == null || !HasRealId(selected.game) {
        return None;
      }
      downloadEnabled := false;
      downloadLabel := "Downloading...";
      return Some(selected.game.realId.value);
    }
  }

  /** The slot loop of `load_game_details`, stepping the grid cell as it adds each slot. */
  method BuildSlots(game: DetectedGame, target: Option<Path>, fs: Fs) returns (slots: seq<ArtSlot>)
    ensures slots == Slots(game, target, fs) && SlotsOk(slots)
  {
    var lookup := LookupId(game);
    slots := [];
    var row, col := 0, 0;
    for i := 0 to |SlotKinds|
      invariant (row, col) == Cell(i)
      invariant slots == Slots(game, target, fs)[..i]
    {
      var kind := SlotKinds[i];
      var currentPath := if target.Some? then Some(PathJoin(target.value, game.appId + kind.suffix)) else None;
      var cachePath := None;
      if lookup != "" {
        cachePath := Some(CachePath(lookup, kind.artType));
      }
      var slot := ArtSlot(kind.title, kind.artType, lookup, currentPath, cachePath,
                          cachePath.Some? && Exists(fs, cachePath.value), row, col);
      assert slot == MakeSlot(game, target, fs, i);
      slots := slots + [slot];
      CellNext(i, row, col);
      col := col + 1;
      if col > 1 {
        col := 0;
        row := row + 1;
      }
    }
    assert Slots(game, target, fs)[..|SlotKinds|] == Slots(game, target, fs);
  }
}
