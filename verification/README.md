# Steam Art Downloader — a verified model of its core

Steam Art Downloader finds the games of a Steam installation and manages their library artwork.
It covers Steam games from the app manifests of every library, and non-Steam shortcuts from
each profile's `shortcuts.vdf`. It downloads artwork into a folder per game, and copies cached
artwork into a profile's `config/grid` folder under the file names the Steam client looks for.
This project models the parts of it that decide what happens, in Dafny, and proves what they
guarantee:

- **Valve KeyValues (VDF) parsers** (`vdf_value`, `vdf_lex`, `vdf_text`, `vdf_binary`):
  - The parsed tree is a `Value` (`VStr`, `VU32`, `VU64`, `VMap` of ordered entries) with
    Python dict semantics: `Assign` replaces an existing key in place and appends a new one.
  - The text parser strips `//` comments line by line, then tokenises quoted strings and braces.
    It runs the key/value stack machine of `parse_text` as a zipper of (parent entries, key)
    frames. A `{` writes the fresh child map into its parent before descending, and the open
    frames are folded back at the end of the input, so unclosed maps still appear.
  - The binary parser is a class, `BinaryReader`, with the shared cursor `ptr` as a field. Its
    `ReadMap`, `ReadString` and `ReadValue` methods are proved against the functions
    `EntriesFrom`/`ValueFrom`, which describe the whole read.
- **CRC-32 and the grid ID** (`crc32`, `game_scanner`):
  - The CRC is the reflected bitwise fold with polynomial 0xEDB88320, checked against the
    standard check value of "123456789".
  - The grid ID of a non-Steam game is the decimal string of
    `((crc | 0x80000000) << 32) | 0x02000000`.
- **The game catalog** (`game_scanner`, `steam_paths`, `filesystem`):
  - The file system is a value: directories, file contents, and ordered directory listings.
  - The scans of manifests, libraries, profiles and shortcuts are loops proved equal to
    filter-map functions, with their error and recovery behaviour. Python exceptions are
    modelled as `None` where they escape and as a stop where they are caught.
  - The Steam root and userdata are found in priority order: settings path, registry,
    defaults.
- **The two tabs** (`manager_tab`, `downloader_tab`, `downloader_view`, `grid_layout`):
  - The manager tab is a class over the game list, the table, the selection, the grid folder
    and the four art slots. It models filtering, the title and lookup-ID rules, matching,
    slots placed two per row, the grid-folder fallback and applying art.
  - `ui/downloader_tab.py` is split in two modules. `Downloader` holds the worker `DownloadWorker`,
    input parsing, folder-name sanitising, and progress and success counting. `DownloaderView` holds
    the tab class `DownloaderTab`, over the inline log and the preview grid. The split keeps the tab's
    class apart from the worker's definitions it opens, and keeps their proofs apart.

## Model

| member | source | states |
|---|---|---|
| `VdfValue.GetSpec` | core/game_scanner.py:81-85 | `d.get(k)` finds a value exactly when `k` is a key, and the value found is stored under `k` |
| `VdfValue.AssignSpec` | core/steam_vdf.py:66 | after `d[k] = v`, `k` reads back as `v` and every other key reads as before; keys stay unique; the map grows by one entry exactly when `k` was new |
| `VdfValue.AssignNew` | core/steam_vdf.py:123-135 | assigning a key that is not present appends it at the end |
| `VdfValue.AssignExisting` | core/steam_vdf.py:66 | assigning a present key replaces its value at its position, changing nothing else |
| `VdfValue.AssignWellFormed` | core/steam_vdf.py:122-135 | storing a well-formed value keeps a map well formed |
| `VdfLex.BeforeComment` | core/steam_vdf.py:78 | `line.split('//')[0]` is a prefix of the line with no `//` in it, and the whole line when it has none |
| `VdfLex.StripComments` | core/steam_vdf.py:72-81 | the line loop of `_strip_comments` computes `Stripped(content)` |
| `VdfLex.StrippedLines` | core/steam_vdf.py:75-81 | the output is its kept lines joined by `\n`, each non-empty, trimmed, free of `//` and of line breaks |
| `VdfLex.StrippedIdempotent` | core/steam_vdf.py:72-81 | stripping comments twice equals stripping them once |
| `VdfLex.CommentCut` | core/steam_vdf.py:78 | everything from the first `//` on is cut, even inside a quoted string; the part before it is kept unchanged |
| `VdfLex.QuoteEnd` | core/steam_vdf.py:25 | the end of a quoted-string match found by the scanner is a `"` at or after the start |
| `VdfLex.UnescapePlainBytes` | core/steam_vdf.py:60 | bytes without a backslash decode one character per byte |
| `VdfLex.UnescapePlain` | core/steam_vdf.py:60 | an ASCII token body without backslashes unescapes to itself |
| `VdfLex.TokenizeRender` | core/steam_vdf.py:25 | plain tokens written as text, quoted strings and braces separated by spaces, are read back by the token pattern as exactly those tokens |
| `VdfText.Step` | core/steam_vdf.py:33-68 | one token keeps the state invariant: a pending key exists whenever a value is expected |
| `VdfText.ParseText` | core/steam_vdf.py:16-70 | `parse_text` returns `Parsed(content)`: comments stripped, tokenised, run, open maps folded back |
| `VdfText.ParseTokenStream` | core/steam_vdf.py:27-70 | the token loop over `stack`, `current`, `key` and `expect_key` computes `ParseTokens(tokens)` |
| `VdfText.RunAppend` | core/steam_vdf.py:33-68 | running `a + b` is running `a`, then `b` from where `a` ended |
| `VdfText.RunStops` | core/steam_vdf.py:60 | once a prefix of the tokens raises, the whole run raises |
| `VdfText.RunRaises` | core/steam_vdf.py:58-60 | the token loop raises exactly when some string token has an escape the codec rejects |
| `VdfText.ParseRaises` | core/steam_vdf.py:58-60 | `parse_text` raises exactly when some string token has an invalid escape |
| `VdfText.ParseIsTextTree` | core/steam_vdf.py:58-68 | the text parser never produces numbers: every value is a string or a map, and every map has unique keys |
| `VdfText.KeyThenValue` | core/steam_vdf.py:62-68 | a key token then a value token store the unescaped value under the unescaped key (replacing any earlier value) and clear the pending key |
| `VdfText.OpenWithoutKeyIgnored` | core/steam_vdf.py:37-40 | `{` with no pending key is skipped: the result is that of the tokens without it |
| `VdfText.CloseAtRoot` | core/steam_vdf.py:53-56 | `}` with an empty stack stays at the root without error and only resets `expect_key` |
| `VdfText.DanglingKeyReused` | core/steam_vdf.py:37-56 | in any state inside a map with a pending key, `}` stores the map under its key in the parent and keeps the key pending; a following `{` then opens a fresh map under that key in the parent, replacing its value there |
| `VdfText.DanglingKeyExample` | core/steam_vdf.py:37-56 | in `"a" { "b" } { }` the key "b" left pending inside "a" names an empty map in the root, beside "a" |
| `VdfText.FoldKeepsOutermost` | core/steam_vdf.py:47-49 | folding the open maps back leaves a map under the key of the outermost one |
| `VdfText.UnclosedMapsKept` | core/steam_vdf.py:47-70 | maps left open at the end of the input still appear in the returned root |
| `VdfText.KeyAloneIsEmpty` | core/steam_vdf.py:62-70 | a key with no value leaves the root empty |
| `VdfText.UrlValueCutAsComment` | core/steam_vdf.py:22-25 | in `"url" "http://host"` the value is cut as a comment and only the key survives, so the result is `{}` |
| `VdfText.StrippedRender` | core/steam_vdf.py:72-81 | a written tree is one clean line, so stripping comments leaves it unchanged |
| `VdfText.RunEntry` | core/steam_vdf.py:37-68 | reading one written entry appends it, with its whole subtree, to the map being filled when its key is new there, and leaves the parser ready for the next key in the same map |
| `VdfText.RunEntries` | core/steam_vdf.py:33-68 | reading the written entries of a map into an empty map gives exactly those entries, in order |
| `VdfText.ParseRender` | core/steam_vdf.py:16-70 | a tree of strings and maps with unique keys and plain strings, written as text, is parsed back to exactly that tree |
| `VdfBinary.FindNul` | core/steam_vdf.py:103 | the index found is the first NUL at or after the cursor; none found means no NUL follows |
| `VdfBinary.StringAt` | core/steam_vdf.py:101-108 | reading a string moves the cursor strictly forward, past its NUL |
| `VdfBinary.EntriesFrom` | core/steam_vdf.py:110-142 | the map loop never moves the cursor back, and moves it forward whenever data is left |
| `VdfBinary.ValueFrom` | core/steam_vdf.py:120-141 | reading a record's value never moves the cursor back |
| `VdfBinary.BinaryReader.constructor` | core/steam_vdf.py:99 | the reader starts with the cursor at offset 0 |
| `VdfBinary.BinaryReader.ReadString` | core/steam_vdf.py:101-108 | `read_string` returns the string up to the next NUL and moves the cursor past it; it raises exactly when no NUL follows |
| `VdfBinary.BinaryReader.ReadMap` | core/steam_vdf.py:110-142 | `read_map` returns the entries `MapAt` describes and leaves the cursor where that read ends; it raises exactly when that read does |
| `VdfBinary.BinaryReader.ReadValue` | core/steam_vdf.py:120-141 | one record's value, by tag: nested map, string, 4- or 8-byte little-endian number, or a stop for an unknown tag or short number |
| `VdfBinary.ParseBinary` | core/steam_vdf.py:91-156 | `parse_binary` returns the map read from offset 0, or `{}` when reading raises |
| `VdfBinary.BinaryParsedWellFormed` | core/steam_vdf.py:122-135 | every parsed map has unique keys; 32-bit values are below 2^32 and 64-bit values below 2^64 |
| `VdfBinary.RecordStep` | core/steam_vdf.py:113-135 | reading one encoded record stores its value under its name and moves past it |
| `VdfBinary.NestedMapRead` | core/steam_vdf.py:122-123 | a nested map's records and end tag read back to its entries, ending after the tag |
| `VdfBinary.Int32Step` | core/steam_vdf.py:126-130 | tag 2 reads four bytes, least significant first |
| `VdfBinary.UInt64Step` | core/steam_vdf.py:131-135 | tag 7 reads eight bytes, least significant first |
| `VdfBinary.BinaryRoundTrip` | core/steam_vdf.py:110-135 | distinct NUL-free names with encoded maps, strings and numbers, then tag 8, parse back to exactly those entries in order, whatever follows |
| `VdfBinary.UnknownTagStops` | core/steam_vdf.py:136-141 | an unknown tag stops the map once its name is read, keeping the entries before it |
| `VdfBinary.ShortNumberStops` | core/steam_vdf.py:126-133 | fewer than 4 (or 8) bytes left for a 32- (or 64-) bit value stops the map, keeping the entries before it |
| `VdfBinary.MissingNulLosesAll` | core/steam_vdf.py:101-156 | inside any number of opened nested maps, after any encoded records, a record whose name has no NUL after it makes `read_string` raise and the whole parse return `{}`: the entries of every level are lost |
| `VdfBinary.MissingStringNulLosesAll` | core/steam_vdf.py:101-156 | the same for a tag-1 record whose string value has no NUL after it: the parse returns `{}` |
| `Crc32.UpdateAppend` | core/game_scanner.py:197 | the CRC register can be fed in pieces |
| `Crc32.Crc32Empty` | core/game_scanner.py:197 | the CRC of no bytes is 0 |
| `Crc32.Crc32Check` | core/game_scanner.py:197 | the CRC of "123456789" is the standard check value 0xCBF43926 |
| `GameScanner.CalculateGridId` | core/game_scanner.py:171-202 | defines `_calculate_grid_id`: the decimal string of the grid value of the CRC of the stored bytes of `exe + name`; its properties are the `GridId` lemmas below |
| `GameScanner.GridIdOfStoredBytes` | core/game_scanner.py:195-197 | a shortcut's ID is the grid value of the CRC of its executable and name bytes exactly as stored in `shortcuts.vdf`, which is what re-encoding the decoded text gives for valid UTF-8 |
| `GameScanner.GridIdAscii` | core/game_scanner.py:195-197 | for ASCII text the bytes hashed are `(exe + name).encode('utf-8')` |
| `GameScanner.GridIdValueRange` | core/game_scanner.py:197-200 | the ID's high half is the CRC with bit 31 set and its low half is 0x02000000, so it lies in [2^63, 2^64) |
| `GameScanner.GridIdShape` | core/game_scanner.py:191-202 | every grid ID is the decimal string of such a number |
| `GameScanner.GridIdOfConcatenation` | core/game_scanner.py:196 | the ID depends only on `exe + name` |
| `GameScanner.GridIdAbsentIsEmpty` | core/game_scanner.py:191-194 | a missing executable or name counts as "" |
| `GameScanner.GridIdOfNothing` | core/game_scanner.py:191-202 | with neither, the ID is "9223372036888330240" |
| `GameScanner.ScanDirForManifests` | core/game_scanner.py:73-99 | the manifest loop returns `ManifestScan`: `[]` for a missing folder, else the game of each manifest in listing order |
| `GameScanner.ReadManifest` | core/game_scanner.py:79-97 | the loop body gives the game of one directory entry, or none when it is not a manifest, cannot be read, raises or describes no game |
| `GameScanner.GameOfAppState` | core/game_scanner.py:81-95 | defines the game one parsed `AppState` gives; its properties are `GameOfAppStateSpec` |
| `GameScanner.GameOfAppStateSpec` | core/game_scanner.py:81-95 | an `AppState` gives a game exactly when `appid` and `name` are truthy (and a truthy `installdir` is a string); it carries `appid` as app and real ID, with `steamapps/common/<installdir>` or no install path |
| `GameScanner.ManifestGamesAppend` | core/game_scanner.py:78-99 | the games of two runs of names are those of each, in order |
| `GameScanner.FailingManifestSkipped` | core/game_scanner.py:79-97 | a failing manifest only drops itself; the games around it are all returned |
| `GameScanner.ManifestScanIsSteam` | core/game_scanner.py:87-95 | every manifest game is a Steam game whose real ID is its app ID |
| `GameScanner.GetInstalledGames` | core/game_scanner.py:39-71 | `[]` without a Steam path; the direct `steamapps` scan when `libraryfolders.vdf` is missing; otherwise the library scans in order |
| `GameScanner.ScanLibraries` | core/game_scanner.py:57-69 | the library loop skips non-map children and those without a truthy `path`, and concatenates the rest's scans in order |
| `GameScanner.LibraryGamesInclude` | core/game_scanner.py:57-69 | when nothing raises, every game of a library with a string `path` is returned |
| `GameScanner.InstalledGamesAreSteam` | core/game_scanner.py:39-71 | every installed game found is a Steam game with `real_id == app_id` |
| `GameScanner.ParseShortcuts` | core/game_scanner.py:123-168 | `_parse_shortcuts` returns the games of the `shortcuts` map, or `[]` when it is absent or not a map |
| `GameScanner.CollectShortcuts` | core/game_scanner.py:130-163 | the shortcuts loop returns the games of the children in order, stopping at the first that raises |
| `GameScanner.ShortcutEntry` | core/game_scanner.py:131-163 | defines the outcome of one child of the `shortcuts` map (skipped, a game, or a raise); its properties are `ShortcutEntrySpec` |
| `GameScanner.ShortcutEntrySpec` | core/game_scanner.py:131-163 | a shortcut is named by `AppName`, else `appname`, with executable `Exe`, else `exe`; its app ID is the grid ID of the two; it belongs to the profile, is not a Steam game and has no real ID |
| `GameScanner.ShortcutReadsOnlyNameAndExe` | core/game_scanner.py:134-135 | only those four keys are read; a stored `appid` changes nothing |
| `GameScanner.RaisingShortcutStops` | core/game_scanner.py:125-168 | a shortcut that raises keeps the games before it and reads none after it |
| `GameScanner.GetNonSteamGames` | core/game_scanner.py:101-121 | `[]` without a Steam path or userdata; otherwise the shortcuts of each profile in listing order |
| `GameScanner.ScanProfiles` | core/game_scanner.py:113-119 | the profile loop concatenates the shortcuts of each profile in listing order |
| `GameScanner.ReadProfile` | core/game_scanner.py:114-119 | one entry gives its shortcuts only when it is a digit-named directory with a `shortcuts.vdf` |
| `GameScanner.NonSteamGamesAreShortcuts` | core/game_scanner.py:101-121 | every non-Steam game found belongs to a digit-named profile, carries a grid ID and has no real ID |
| `SteamPaths.FirstDir` | core/steam_paths.py:63-65 | the index found is the first candidate that is a directory; none found means no candidate is one |
| `SteamPaths.GetSteamInstallPath` | core/steam_paths.py:18-67 | `get_steam_install_path` returns `SteamInstallPath` |
| `SteamPaths.SteamInstallPathChoice` | core/steam_paths.py:27-67 | the settings path when it is an existing directory; else, on Windows, an existing registry path; else the first default that is a directory, or none |
| `SteamPaths.UnknownPlatform` | core/steam_paths.py:32-67 | on an unknown operating system only the settings path can be found |
| `SteamPaths.UserdataPathChoice` | core/steam_paths.py:77-88 | the override when it is an existing directory, else `<root>/userdata` when it exists (the root detected when not given), else none |
| `SteamPaths.GetGridPaths` | core/steam_paths.py:91-106 | `get_grid_paths` returns `[]` for a missing userdata, otherwise one grid folder per digit-named directory child, in order |
| `SteamPaths.GridDirsMembers` | core/steam_paths.py:101-104 | a path is returned exactly when it is the grid folder of a listed profile, and there are at most as many as names |
| `SteamPaths.GridDirsFirst` | core/steam_paths.py:101-104 | the first grid folder returned is that of the first digit-named directory in listing order |
| `SteamPaths.GridDirsNone` | core/steam_paths.py:101-104 | with no digit-named directory listed, no grid folder is returned |
| `SteamPaths.GridDirShape` | core/steam_paths.py:103 | a profile's grid folder is `<userdata>/<profile>/config/grid` |
| `SteamPaths.GridPathsExample` | core/steam_paths.py:101-104 | profiles "1" and "2" give their grid folders; "backup" is excluded |
| `GridLayout.Cell` | ui/manager_tab.py:290-313 | item `j` sits in a column below 2, at row `j div 2` |
| `GridLayout.CellNext` | ui/manager_tab.py:310-313 | stepping the column, and wrapping to a new row after the second, moves to the next cell |
| `ManagerTab.ShownMembers` | ui/manager_tab.py:243-249 | a game is shown exactly when it is listed and the lower-cased query is in its lower-cased name or in its app ID |
| `ManagerTab.ShownAppend` | ui/manager_tab.py:246-248 | filtering keeps the list order |
| `ManagerTab.ShownEmptyQuery` | ui/manager_tab.py:245-248 | the empty query shows every game |
| `ManagerTab.ShownIdempotent` | ui/manager_tab.py:243-249 | filtering the shown rows again changes nothing |
| `ManagerTab.Title` | ui/manager_tab.py:263-265 | defines the details title; its properties are `TitleSpec` |
| `ManagerTab.TitleSpec` | ui/manager_tab.py:263-265 | the title starts with the name and app ID, and carries ` [Matched: <real_id>]` exactly when the real ID is truthy and differs from the app ID |
| `ManagerTab.SteamGameLookup` | ui/manager_tab.py:281 | a Steam game is looked up by its own app ID and shows no match |
| `ManagerTab.ArtFileNameSlots` | ui/manager_tab.py:369-376 | the file-name map knows exactly the four slots' art types and names the file with the slot's suffix |
| `ManagerTab.Slots` | ui/manager_tab.py:281-313 | defines the four art slots of a game for a grid folder; their properties are `SlotsSpec` |
| `ManagerTab.SlotsSpec` | ui/manager_tab.py:281-313 | each slot sits in cell `i` and shows the grid file named from the app ID, and the cache of the lookup ID; applying is enabled exactly when that cache file exists |
| `ManagerTab.GridTargetDirSpec` | ui/manager_tab.py:397-410 | none without userdata; the profile's folder for a game with a user ID; else the folder of the first profile in listing order, or `anonymous` when none is listed; listing fails exactly when userdata is not a directory |
| `ManagerTab.ApplyPlan` | ui/manager_tab.py:353-395 | defines the outcome and file system of `apply_art`; its properties are `ApplyPlanSpec` and `ApplyTwice` |
| `ManagerTab.ApplyPlanSpec` | ui/manager_tab.py:353-395 | nothing without a grid folder, after a failed mkdir, for an unmapped type or a missing cache file; only a successful copy writes, and exactly the mapped grid file with the cached bytes |
| `ManagerTab.ApplyTwice` | ui/manager_tab.py:385-389 | applying the same art again changes nothing more |
| `ManagerTab.AsWrittenMissesPreview` | ui/manager_tab.py:130-131 | as written, for every game matched to a real ID other than its app ID, a successful apply writes a file other than the one its slot shows |
| `ManagerTab.AsWrittenMissesPreviewExample` | ui/manager_tab.py:130-131 | game "3000000000" matched to "440" with its header cached: the header slot is enabled, shows `3000000000_header.jpg`, and applying it writes `440_header.jpg` |
| `ManagerTab.AppliedIsPreview` | ui/manager_tab.py:284-297 | with the file named from the game's app ID, applying a slot writes the file the slot shows, from the image it previews |
| `ManagerTab.UnmatchedUnaffected` | ui/manager_tab.py:281 | for a game not matched to another ID both namings write the same file |
| `ManagerTab.BuildSlots` | ui/manager_tab.py:290-313 | the slot loop builds the four slots two per row, one per cell in order |
| `ManagerTab.ManagerTab.constructor` | ui/manager_tab.py:133-142 | no games, no selection, no slots; matching and downloading disabled |
| `ManagerTab.ManagerTab.OnScanFinished` | ui/manager_tab.py:223-228 | the scanned games become the list and the table shows them all; the selection, slots, title, grid folder and buttons are unchanged |
| `ManagerTab.ManagerTab.FilterGames` | ui/manager_tab.py:243-249 | the table shows the games matching the lower-cased text, in list order, and nothing else changes |
| `ManagerTab.ManagerTab.LoadGameDetails` | ui/manager_tab.py:259-313 | selects the game, sets the title, enables matching, enables downloading exactly when it has a real ID, and shows its slots for its grid folder |
| `ManagerTab.ManagerTab.ShowDetails` | ui/manager_tab.py:261-313 | the same once the grid folder is known; a failed listing leaves no slots |
| `ManagerTab.ManagerTab.ApplySlot` | ui/manager_tab.py:130-131 | as written: applying slot `i` is `apply_art` with the slot's emitted lookup ID both naming the grid file and finding the cached image; the selection, list and table are kept |
| `ManagerTab.ManagerTab.ApplySlotToShownFile` | ui/manager_tab.py:280-297 | as intended: the grid file is named from the selected game's app ID and the image is the cache of the slot's lookup ID |
| `ManagerTab.ManagerTab.ApplyArt` | ui/manager_tab.py:353-395 | the outcome and file system of `ApplyPlan`; after a copy the selected game's details (title, buttons, grid folder, slots) are shown again from the new file system, otherwise nothing changes |
| `ManagerTab.ManagerTab.MatchGame` | ui/manager_tab.py:315-326 | with a selection and a chosen ID, only the shared game's real ID changes and its details (title, buttons, grid folder, slots) are shown again; otherwise nothing changes |
| `ManagerTab.ManagerTab.DownloadCurrentGame` | ui/manager_tab.py:328-340 | starts with the real ID and disables the button; does nothing without a selected game with a real ID |
| `Downloader.ParseInput` | ui/downloader_tab.py:191-215 | defines what `start_download` makes of the stripped input; its properties are the `ParseInput` lemmas below |
| `Downloader.ParseInputEmpty` | ui/downloader_tab.py:192-194 | input empty after stripping, and only that, asks for nothing |
| `Downloader.ParseInputBatch` | ui/downloader_tab.py:196-203 | a batch exactly when there are several words, all digits; the IDs are those words in order |
| `Downloader.ParseInputSingle` | ui/downloader_tab.py:206-207 | all-digit input asks for that one ID |
| `Downloader.ParseInputSearch` | ui/downloader_tab.py:208-215 | any other input, including several words one of which is not all digits, is searched for as one string |
| `Downloader.BatchRoundTrip` | ui/downloader_tab.py:197-203 | IDs joined by spaces parse back to exactly those IDs |
| `Downloader.KeepNameChars` | ui/downloader_tab.py:43 | the kept characters are letters, digits, space, '-' and '_' only, and no more than the input |
| `Downloader.KeepNameCharsOne` | ui/downloader_tab.py:43 | one character is kept exactly when it is a letter, digit, space, '-' or '_' |
| `Downloader.KeepNameCharsAppend` | ui/downloader_tab.py:43 | the filter of two joined parts is the filter of each, in order, so it keeps every name character of the input in order and drops the rest |
| `Downloader.KeepNameCharsMembers` | ui/downloader_tab.py:43 | a character occurs in the result exactly when it occurs in the input and is a name character |
| `Downloader.SafeName` | ui/downloader_tab.py:43 | defines the sanitised game name, the kept characters stripped; its properties are `SafeNameSpec` |
| `Downloader.SafeNameSpec` | ui/downloader_tab.py:43 | a safe name has only those characters, no whitespace at either end, and sanitising it again changes nothing |
| `Downloader.FolderNameInjective` | ui/downloader_tab.py:43-44 | two apps share a folder only when they have the same app ID and safe name |
| `Downloader.FolderNameComponent` | ui/downloader_tab.py:43-47 | a folder name is one non-empty path component, never `.` or `..` |
| `Downloader.SavedCount` | ui/downloader_tab.py:59-80 | `local_saved` never exceeds the number of keys |
| `Downloader.SavedCountSpec` | ui/downloader_tab.py:70-80 | `local_saved` counts exactly the keys downloaded non-empty, mapped to a file name and written |
| `Downloader.CountDownloaded` | ui/downloader_tab.py:86-93 | the apps reported as downloaded are at most the apps reported |
| `Downloader.SuccessCountSpec` | ui/downloader_tab.py:86-93 | `success_count` counts exactly the apps whose folder was created and which saved an artwork, so at most the number of apps |
| `Downloader.ProgressShape` | ui/downloader_tab.py:53-84 | after `i` apps the step is exactly `i * len(keys)`, whether or not folders failed; every emission carries the total and never goes back |
| `Downloader.RunProgress` | ui/downloader_tab.py:28-96 | every emission of `run` carries the total, never decreases or exceeds it, and the last is `(total, total)` |
| `Downloader.DownloadWorker.constructor` | ui/downloader_tab.py:18-21 | the worker keeps its app IDs and starts with no last path |
| `Downloader.DownloadWorker.Run` | ui/downloader_tab.py:23-97 | the nested loops emit `Progress`, report each app, count the successful ones and leave the last successful folder as `last_path` |
| `DownloaderView.LogLines` | ui/downloader_tab.py:177-187 | defines the lines the log label keeps; their properties are `LogLinesSpec` |
| `DownloaderView.LogLinesSpec` | ui/downloader_tab.py:177-187 | one or two lines are kept: the new message last, after the previous last line when there was text |
| `DownloaderView.InlineLogReadBack` | ui/downloader_tab.py:180-187 | splitting the label's text gives back the kept lines when the message is one line |
| `DownloaderView.InlineLogLastTwo` | ui/downloader_tab.py:177-187 | two one-line messages in a row leave exactly those two lines, whatever was shown |
| `DownloaderView.ShownKeysSpec` | ui/downloader_tab.py:249-250 | a key gets a preview exactly when its download is non-empty |
| `DownloaderView.GridNext` | ui/downloader_tab.py:270-274 | placing a preview at the cursor and advancing it keeps preview `j` in cell `j` and the cursor after the last |
| `DownloaderView.DownloaderTab.constructor` | ui/downloader_tab.py:102-161 | idle status, empty input, log and previews, button enabled |
| `DownloaderView.DownloaderTab.StartDownload` | ui/downloader_tab.py:191-226 | the IDs handed to the worker for the parsed input and the search choice; a started download disables the button, clears the previews and shows a chosen ID; otherwise nothing changes |
| `DownloaderView.DownloaderTab.Begin` | ui/downloader_tab.py:200-226 | the state change of a started download for an already parsed request |
| `DownloaderView.DownloaderTab.Reset` | ui/downloader_tab.py:216-225 | after a started download the button is off, the status reads "Starting download...", the previews are gone with the grid cursor back at the first cell, and the log and saved path are kept |
| `DownloaderView.DownloaderTab.OnItemFinished` | ui/downloader_tab.py:243-274 | shows the message, keeps a non-empty saved path, and places one preview per non-empty download after those already shown, two per row |
| `DownloaderView.DownloaderTab.UpdateInlineLog` | ui/downloader_tab.py:177-187 | the log label becomes `InlineLog` of its old text and the message, and nothing else changes |

## Left out

- Reading files, `glob`, `iterdir`, `exists`, `mkdir`, `shutil.copy2`, logging and `print`. The file system is a value, and a failing `mkdir` or copy is a boolean input.
- Qt widgets, signals, threads (`QThread` workers), pixmaps, dialogs and message boxes. A dialog's answer is an input (`choice`), and widget state is a class field.
- The network (`SteamDBFetcher`): the game name, each download and each save are inputs to `DownloadWorker.Run`.
- The settings file, `load_text` and `load_binary`. The settings `steam_path` that `ManagerTab` reads does not exist in the settings class, so that entry path is not modelled.
- `ImageCache`: only its path `cache/<id>_<type>.jpg` is modelled, with the default cache folder.
- The cache writes of `on_image_downloaded` and `on_download_complete`, and `start_scan`: these are thread and cache plumbing.
- The progress bar widget, and `on_progress`/`on_batch_finished`: progress is modelled as the sequence of emissions.
- VdfLex.Tokenize: the regular expression of `parse_text` is modelled by an explicit scanner of quoted strings and braces, not derived from a regex semantics. Its partner is the writer `RenderTokens`; the round trip is proved only for plain strings (ASCII, no quote, backslash, slash or line break), since the source has no writer to follow for the rest.
- VdfLex.UnescapeBytes: `\N{...}` escapes are not modelled: `\N` is kept as text, like an unknown escape. Surrogate escapes (`\ud800`..`\udfff` and their `\U` forms), which the `unicode_escape` codec accepts and turns into a lone surrogate, are treated as raising, because a Dafny `char` cannot hold a surrogate.
- VdfText.RunRaises and VdfText.ParseRaises inherit both differences of `UnescapeBytes`: a string token holding a surrogate escape counts as one the codec rejects, where `parse_text` would accept it; and a `\N` escape is kept as text, where the codec decodes a valid `\N{...}` and raises on any other.
- VdfBinary.StringAt: names and strings decode one byte per character, so a non-ASCII name or string holds the stored bytes rather than the text UTF-8 decoding with replacement gives; the two agree on ASCII.
- GameScanner.CalculateGridId: it hashes the stored bytes of the executable and name. The source hashes the UTF-8 re-encoding of their decoded text, which is the same bytes when they are valid UTF-8; for invalid UTF-8 the source hashes U+FFFD replacement characters instead, so the ID of such a shortcut, and the grid file names made from it, differ from the program's.
- VdfBinary.BinaryReader.ReadMap: Python's recursion limit on deeply nested maps is not modelled.
- Text, `IsDigit`/`IsAlnum`/`Lower` are ASCII predicates. Python's Unicode `isdigit`, `isalnum` and `lower` accept more characters.
- FileSystem.PathJoin: paths are joined with "/" and never normalised. `Path.resolve()` on the download folder is not modelled.
- GameScanner.GameOfAppStateSpec: an `appid` or `name` that is a nested map (truthy, so Python would stringify or keep it) gives no game in the model.
- GameScanner.CalculateGridId: the ID is the 64-bit value the code computes, not the legacy 32-bit "CRC with the high bit set" that the function's own documentation also mentions.
- ManagerTab.ApplyPlanSpec: `mkdir(parents=True)` is modelled as creating only the grid folder, and the listing is not updated after a copy. A copy onto an existing directory is just a failing copy.
- ManagerTab.ManagerTab.ApplyArt: it requires a selected game, since `apply_art` is reached only from a slot and slots exist only once a game is selected.
- `target_grid_dir` before the first selection: it is undefined in the source and `None` in the model.

## Findings

| source | as written | input that shows it | evidently intended | confidence | as-written member | corrected member |
|---|---|---|---|---|---|---|
| ui/manager_tab.py:131 | the slot emits the lookup ID (the real ID when set), and `apply_art` names the grid file after it (lines 369-376, 385) | a non-Steam game with app ID "3000000000" matched to real ID "440": the header is written to `440_header.jpg`, while the slot shows `3000000000_header.jpg` (lines 284-297) | name the grid file after the game's app ID and look up the cached image by the lookup ID, as the comment at line 280 says | medium, not executed | `ManagerTab.AsWrittenMissesPreview` | `ManagerTab.AppliedIsPreview` |
