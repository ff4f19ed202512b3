/**
 * The Downloader tab: what the input box asks for, the folder each game's artwork is saved in,
 * the progress and success accounting of the download worker, the two-line inline log and the
 * placement of previews in a two-column grid.  The network (game names and images), the search
 * dialog and the outcome of creating folders and writing files are inputs.
 */
module Downloader {
  import opened Wrappers
  import opened Text
  import opened Bytes
  import opened FileSystem

  // ---------------------------------------------------------------------------------------
  // What the input box asks for (`start_download`)

  /** Nothing, a list of app IDs to download, or a name to look up in the search dialog. */
  datatype Request = NoRequest | AppIds(ids: seq<string>) | SearchFor(query: string)

  predicate AllDigits(parts: seq<string>) {
    forall k :: 0 <= k < |parts| ==> IsDigits(parts[k])
  }

  /**
   * The request for the text in the input box: a batch when it splits into more than one word
   * and every word is all digits, one ID when the stripped text is all digits, and otherwise a
   * search for the stripped text.
   */
  function ParseInput(text: string): Request {
    Classify(Strip(text), Words(Strip(text)))
  }

  /** The request for the stripped input `input`, which splits into the words `parts`. */
  function Classify(input: string, parts: seq<string>): Request {
    if input == [] then NoRequest
    else if |parts| > 1 && AllDigits(parts) then AppIds(parts)
    else if IsDigits(input) then AppIds([input])
    else SearchFor(input)
  }

  lemma DigitsNoSpace(s: string)
    requires IsDigits(s)
    ensures NoSpace(s)
  {
  }

  /** Empty input asks for nothing, and only empty input does. */
  lemma ParseInputEmpty(text: string)
    ensures ParseInput(text) == NoRequest <==> Strip(text) == []
  {
    ClassifyEmpty(Strip(text), Words(Strip(text)));
  }

  lemma ClassifyEmpty(input: string, parts: seq<string>)
    ensures Classify(input, parts) == NoRequest <==> input == []
  {
  }

  /**
   * A batch is asked for exactly when the input has more than one word and every word is all
   * digits, and it is those words; every ID asked for is all digits.
   */
  lemma ParseInputBatch(text: string)
    ensures var input := Strip(text); var r := ParseInput(text);
      && (r.AppIds? ==> r.ids != [] && AllDigits(r.ids))
      && (r.AppIds? && |r.ids| > 1 <==> input != [] && |Words(input)| > 1 && AllDigits(Words(input)))
      && (r.AppIds? && |r.ids| > 1 ==> r.ids == Words(input))
  {
    ClassifyBatch(Strip(text), Words(Strip(text)));
  }

  lemma ClassifyBatch(input: string, parts: seq<string>)
    ensures var r := Classify(input, parts);
      && (r.AppIds? ==> r.ids != [] && AllDigits(r.ids))
      && (r.AppIds? && |r.ids| > 1 <==> input != [] && |parts| > 1 && AllDigits(parts))
      && (r.AppIds? && |r.ids| > 1 ==> r.ids == parts)
  {
  }

  /** Input that is all digits once stripped asks for that one ID. */
  lemma ParseInputSingle(text: string)
    requires IsDigits(Strip(text))
    ensures ParseInput(text) == AppIds([Strip(text)])
  {
    DigitsNoSpace(Strip(text));
    WordsOfWord(Strip(text));
  }

  /**
   * Anything that is neither empty, nor all digits, nor a batch of all-digit words (for
   * instance several words one of which is not all digits) is searched for as one string.
   */
  lemma ParseInputSearch(text: string)
    ensures var input := Strip(text); var r := ParseInput(text);
      && (r.SearchFor? <==> input != [] && !IsDigits(input) && !(|Words(input)| > 1 && AllDigits(Words(input))))
      && (r.SearchFor? ==> r.query == input)
  {
    ClassifySearch(Strip(text), Words(Strip(text)));
  }

  lemma ClassifySearch(input: string, parts: seq<string>)
    ensures var r := Classify(input, parts);
      && (r.SearchFor? <==> input != [] && !IsDigits(input) && !(|parts| > 1 && AllDigits(parts)))
      && (r.SearchFor? ==> r.query == input)
  {
  }

  /** Typing IDs separated by single spaces asks for exactly those IDs. */
  lemma BatchRoundTrip(ids: seq<string>)
    requires |ids| > 1 && AllDigits(ids)
    ensures ParseInput(Join(" ", ids)) == AppIds(ids)
  {
    var text := Join(" ", ids);
    forall k | 0 <= k < |ids|
      ensures ids[k] != [] && NoSpace(ids[k])
    {
      DigitsNoSpace(ids[k]);
    }
    JoinEnds(" ", ids);
    StripFixed(text);
    WordsJoin(ids);
  }

  // ---------------------------------------------------------------------------------------
  // Folder names (`safe_name`, `folder_name`)

  /** The characters `safe_name` keeps: letters, digits, space, '-' and '_'. */
  predicate NameChar(c: char) {
    IsAlnum(c) || c == ' ' || c == '-' || c == '_'
  }

  predicate NameChars(s: string) {
    forall i :: 0 <= i < |s| ==> NameChar(s[i])
  }

  /** The characters of `s` that are kept, in order. */
  function KeepNameChars(s: string): (r: string)
    ensures |r| <= |s| && NameChars(r)
  {
    if s == [] then []
    else (if NameChar(s[0]) then [s[0]] else []) + KeepNameChars(s[1..])
  }

  /** A single character is kept exactly when it is a name character. */
  lemma KeepNameCharsOne(c: char)
    ensures KeepNameChars([c]) == if NameChar(c) then [c] else []
  {
    assert [c][1..] == [];
  }

  /**
   * Filtering a string made of two parts keeps the kept characters of each part, in order:
   * with `KeepNameCharsOne`, every name character of the input is kept, every other one
   * dropped, and their order is preserved.
   */
  lemma {:induction false} KeepNameCharsAppend(a: string, b: string)
    ensures KeepNameChars(a + b) == KeepNameChars(a) + KeepNameChars(b)
  {
    if a != [] {
      KeepNameCharsAppend(a[1..], b);
      assert (a + b)[1..] == a[1..] + b;
    } else {
      assert a + b == b;
    }
  }

  /** A character survives exactly when it occurs in the input and is a name character. */
  lemma {:induction false} KeepNameCharsMembers(s: string, c: char)
    ensures c in KeepNameChars(s) <==> c in s && NameChar(c)
  {
    if s != [] {
      KeepNameCharsMembers(s[1..], c);
      assert s == [s[0]] + s[1..];
    }
  }

  /** Keeping the name characters changes nothing in a string made only of them. */
  lemma {:induction false} KeepNameCharsFixed(s: string)
    requires NameChars(s)
    ensures KeepNameChars(s) == s
  {
    if s != [] {
      KeepNameCharsFixed(s[1..]);
      HeadTail(s);
    }
  }

  /** `safe_name`: the kept characters of the game's name, stripped. */
  function SafeName(name: string): string {
    Strip(KeepNameChars(name))
  }

  /** `folder_name`: the safe name followed by the app ID in parentheses. */
  function FolderName(name: string, appId: string): string {
    Label(SafeName(name), appId)
  }

  /**
   * A safe name holds only letters, digits, spaces, '-' and '_' (so no path separator), has no
   * whitespace at either end, and sanitising it again changes nothing.
   */
  lemma SafeNameSpec(name: string)
    ensures NameChars(SafeName(name))
    ensures SafeName(name) == [] || (!IsSpace(SafeName(name)[0]) && !IsSpace(SafeName(name)[|SafeName(name)| - 1]))
    ensures SafeName(SafeName(name)) == SafeName(name)
  {
    var kept := KeepNameChars(name);
    var i, j := StripSlice(kept);
    SafeNameChars(name);
    KeepNameCharsFixed(Strip(kept));
    StripIdempotent(kept);
  }

  lemma SafeNameChars(name: string)
    ensures NameChars(SafeName(name))
  {
    var kept := KeepNameChars(name);
    var i, j := StripSlice(kept);
    SliceNameChars(kept, i, j);
  }

  lemma SliceNameChars(s: string, i: nat, j: nat)
    requires NameChars(s) && i <= j <= |s|
    ensures NameChars(s[i..j])
  {
    forall m | 0 <= m < j - i
      ensures NameChar(s[i..j][m])
    {
      assert s[i..j][m] == s[i + m];
    }
  }

  /**
   * Two apps are saved in the same folder only when they have the same app ID (and the same
   * safe name): '(' occurs in a folder name only right after the safe name.
   */
  lemma FolderNameInjective(name1: string, appId1: string, name2: string, appId2: string)
    requires IsDigits(appId1) && IsDigits(appId2)
    requires FolderName(name1, appId1) == FolderName(name2, appId2)
    ensures appId1 == appId2 && SafeName(name1) == SafeName(name2)
  {
    SafeNameChars(name1);
    SafeNameChars(name2);
    LabelInjective(SafeName(name1), appId1, SafeName(name2), appId2);
  }

  /** The folder label `s (id)`. */
  function Label(s: string, appId: string): string {
    s + " (" + appId + ")"
  }

  /** Where '(' is in a label whose name part is made of name characters. */
  lemma LabelParen(s: string, appId: string, m: nat)
    requires NameChars(s) && IsDigits(appId) && m < |Label(s, appId)|
    ensures Label(s, appId)[m] == '(' <==> m == |s| + 1
  {
    var f := Label(s, appId);
    if m < |s| {
      assert f[m] == s[m];
    } else if m >= |s| + 2 && m < |f| - 1 {
      assert f[m] == appId[m - |s| - 2];
    }
  }

  lemma LabelInjective(s1: string, appId1: string, s2: string, appId2: string)
    requires NameChars(s1) && IsDigits(appId1) && NameChars(s2) && IsDigits(appId2)
    requires Label(s1, appId1) == Label(s2, appId2)
    ensures appId1 == appId2 && s1 == s2
  {
    var f := Label(s1, appId1);
    LabelParen(s1, appId1, |s1| + 1);
    LabelParen(s2, appId2, |s1| + 1);
    assert |s1| == |s2|;
    assert s1 == f[..|s1|] == s2;
    assert appId1 == f[|s1| + 2..|f| - 1] == appId2;
  }

  /** A folder name is a single path component: no separator occurs in it. */
  lemma FolderNameComponent(name: string, appId: string)
    requires IsDigits(appId)
    ensures '/' !in FolderName(name, appId) && '\\' !in FolderName(name, appId)
    ensures FolderName(name, appId) != "" && FolderName(name, appId) != "." && FolderName(name, appId) != ".."
  {
    SafeNameChars(name);
    LabelComponent(SafeName(name), appId);
  }

  lemma LabelComponent(s: string, appId: string)
    requires NameChars(s) && IsDigits(appId)
    ensures '/' !in Label(s, appId) && '\\' !in Label(s, appId)
    ensures |Label(s, appId)| >= 4
  {
    var f := Label(s, appId);
    forall m | 0 <= m < |f|
      ensures f[m] != '/' && f[m] != '\\'
    {
      if m < |s| {
        assert f[m] == s[m];
      } else if m >= |s| + 2 && m < |f| - 1 {
        assert f[m] == appId[m - |s| - 2];
      }
    }
  }

  // ---------------------------------------------------------------------------------------
  // The download worker (`DownloadWorker.run`)

  /** The artwork keys of the SteamDB fetcher, in order: one download per key and app. */
  const ArtworkKeys: seq<string> := ["header", "library_600x900_2x", "library_hero_2x", "logo", "capsule_231x87"]

  /** `local_mapping`: the file each artwork key is saved as. */
  function LocalFileName(key: string): Option<string> {
    if key == "header" then Some("header.jpg")
    else if key == "library_600x900_2x" then Some("library_600x900_2x.jpg")
    else if key == "library_hero_2x" then Some("library_hero_2x.jpg")
    else if key == "logo" then Some("logo.png")
    else if key == "capsule_231x87" then Some("capsule_231x87.jpg")
    else None
  }

  /** What `fetch_image` returns: the image's bytes, or None. */
  type Image = Option<seq<byte>>

  /** Python truthiness of a download: present and non-empty. */
  predicate HasData(d: Image) {
    d.Some? && d.value != []
  }

  /**
   * What the network and the disk answer for one app: its name from the store, whether its
   * folder could be created, the download for each artwork key, and whether writing each of
   * them succeeded.
   */
  datatype AppIo = AppIo(name: string, folderOk: bool, images: seq<Image>, written: seq<bool>)

  predicate Fits(io: AppIo) {
    |io.images| == |ArtworkKeys| && |io.written| == |ArtworkKeys|
  }

  predicate AllFit(io: seq<AppIo>) {
    forall i :: 0 <= i < |io| ==> Fits(io[i])
  }

  /** Whether the `k`-th artwork is saved: downloaded, mapped to a file name and written. */
  predicate SavedAt(io: AppIo, k: nat)
    requires Fits(io) && k < |ArtworkKeys|
  {
    HasData(io.images[k]) && LocalFileName(ArtworkKeys[k]).Some? && io.written[k]
  }

  /** `local_saved` after the first `n` keys. */
  function SavedCount(io: AppIo, n: nat): (r: nat)
    requires Fits(io) && n <= |ArtworkKeys|
    ensures r <= n
  {
    if n == 0 then 0 else SavedCount(io, n - 1) + (if SavedAt(io, n - 1) then 1 else 0)
  }

  /** The `results` dict after the first `n` keys: each key with its download. */
  function Results(io: AppIo, n: nat): seq<(string, Image)>
    requires Fits(io) && n <= |ArtworkKeys|
  {
    seq(n, k requires 0 <= k < n => (ArtworkKeys[k], io.images[k]))
  }

  /** What `item_finished` reports for one app. */
  datatype Report =
    | FolderFailed(appId: string)
    | Downloaded(saved: nat, name: string, results: seq<(string, Image)>, path: Path)
    | NothingSaved(name: string)

  /** The report for app `appId`, whose artwork goes to `installRoot/<folder name>`. */
  function AppReport(installRoot: Path, appId: string, io: AppIo): Report
    requires Fits(io)
  {
    if !io.folderOk then FolderFailed(appId)
    else if SavedCount(io, |ArtworkKeys|) > 0 then
      Downloaded(SavedCount(io, |ArtworkKeys|), io.name, Results(io, |ArtworkKeys|),
                 PathJoin(installRoot, FolderName(io.name, appId)))
    else NothingSaved(io.name)
  }

  /** The reports for the first `n` apps. */
  function Reports(installRoot: Path, appIds: seq<string>, io: seq<AppIo>, n: nat): seq<Report>
    requires |io| == |appIds| && AllFit(io) && n <= |appIds|
  {
    seq(n, i requires 0 <= i < n => AppReport(installRoot, appIds[i], io[i]))
  }

  /** The number of apps reported as downloaded. */
  function CountDownloaded(reports: seq<Report>): (r: nat)
    ensures r <= |reports|
  {
    if reports == [] then 0
    else CountDownloaded(reports[..|reports| - 1]) + (if reports[|reports| - 1].Downloaded? then 1 else 0)
  }

  /** The path of the last app reported as downloaded, or `last` when there is none. */
  function LastPath(reports: seq<Report>, last: string): string {
    if reports == [] then last
    else if reports[|reports| - 1].Downloaded? then reports[|reports| - 1].path
    else LastPath(reports[..|reports| - 1], last)
  }

  /** The progress emissions `(current, total)` for the `k` first keys of app `i`. */
  function KeySteps(i: nat, k: nat, total: nat): seq<(nat, nat)> {
    seq(k, j => (i * |ArtworkKeys| + j + 1, total))
  }

  /** The progress emissions for app `i`: one per key, or one jump past its keys when its folder fails. */
  function AppProgress(i: nat, folderOk: bool, total: nat): seq<(nat, nat)> {
    if folderOk then KeySteps(i, |ArtworkKeys|, total) else [((i + 1) * |ArtworkKeys|, total)]
  }

  /** The progress emissions for the first `n` apps. */
  function Progress(io: seq<AppIo>, n: nat, total: nat): seq<(nat, nat)>
    requires n <= |io|
  {
    if n == 0 then [] else Progress(io, n - 1, total) + AppProgress(n - 1, io[n - 1].folderOk, total)
  }

  /** `DownloadWorker`: downloads the artwork of a list of apps into the install folder. */
  class DownloadWorker {
    const appIds: seq<string>
    var lastPath: string

    constructor(appIds: seq<string>)
      ensures this.appIds == appIds && lastPath == ""
    {
      this.appIds := appIds;
      lastPath := "";
    }

    /**
     * `run`: the progress emitted, the report for each app and the number of apps with at
     * least one artwork saved; `lastPath` becomes the folder of the last successful app.
     */
    method Run(installRoot: Path, io: seq<AppIo>) returns (progress: seq<(nat, nat)>, reports: seq<Report>, successCount: nat)
      requires |io| == |appIds| && AllFit(io)
      modifies this
      ensures var total := |appIds| * |ArtworkKeys|;
        progress == Progress(io, |io|, total) + [(total, total)]
      ensures reports == Reports(installRoot, appIds, io, |appIds|)
      ensures successCount == CountDownloaded(reports)
      ensures lastPath == LastPath(reports, old(lastPath))
    {
      var total := |appIds| * |ArtworkKeys|;
      var currentStep := 0;
      successCount := 0;
      progress := [];
      reports := [];
      for i := 0 to |appIds|
        invariant currentStep == i * |ArtworkKeys|
        invariant progress == Progress(io, i, total)
        invariant reports == Reports(installRoot, appIds, io, i)
        invariant successCount == CountDownloaded(reports)
        invariant lastPath == LastPath(reports, old(lastPath))
      {
        var report, steps := RunApp(installRoot, appIds[i], io[i], i, total);
        currentStep := currentStep + |ArtworkKeys|;
        progress := progress + steps;
        ReportsStep(installRoot, appIds, io, i);
        AppendedReport(reports, report, old(lastPath));
        reports := reports + [report];
        if report.Downloaded? {
          successCount := successCount + 1;
          lastPath := report.path;
        }
      }
      progress := progress + [(total, total)];
    }

    /** One app of `run`: its report and the progress it emits, starting after `i` apps. */
    static method RunApp(installRoot: Path, appId: string, io: AppIo, i: nat, total: nat)
      returns (report: Report, steps: seq<(nat, nat)>)
      requires Fits(io)
      ensures report == AppReport(installRoot, appId, io)
      ensures steps == AppProgress(i, io.folderOk, total)
    {
      var currentStep := i * |ArtworkKeys|;
      if !io.folderOk {
        currentStep := currentStep + |ArtworkKeys|;
        return FolderFailed(appId), [(currentStep, total)];
      }
      var results: seq<(string, Image)> := [];
      var localSaved := 0;
      steps := [];
      for k := 0 to |ArtworkKeys|
        invariant currentStep == i * |ArtworkKeys| + k
        invariant results == Results(io, k)
        invariant localSaved == SavedCount(io, k)
        invariant steps == KeySteps(i, k, total)
      {
        var data := io.images[k];
        results := results + [(ArtworkKeys[k], data)];
        if HasData(data) {
          var local := LocalFileName(ArtworkKeys[k]);
          if local.Some? && io.written[k] {
            localSaved := localSaved + 1;
          }
        }
        currentStep := currentStep + 1;
        steps := steps + [(currentStep, total)];
      }
      if localSaved > 0 {
        report := Downloaded(localSaved, io.name, results, PathJoin(installRoot, FolderName(io.name, appId)));
      } else {
        report := NothingSaved(io.name);
      }
    }
  }

  lemma ReportsStep(installRoot: Path, appIds: seq<string>, io: seq<AppIo>, i: nat)
    requires |io| == |appIds| && AllFit(io) && i < |appIds|
    ensures Reports(installRoot, appIds, io, i + 1)
      == Reports(installRoot, appIds, io, i) + [AppReport(installRoot, appIds[i], io[i])]
  {
  }

  lemma AppendedReport(reports: seq<Report>, r: Report, last: string)
    ensures CountDownloaded(reports + [r]) == CountDownloaded(reports) + if r.Downloaded? then 1 else 0
    ensures LastPath(reports + [r], last) == if r.Downloaded? then r.path else LastPath(reports, last)
  {
    assert (reports + [r])[..|reports|] == reports;
  }

  /**
   * The progress emitted for the first `n` apps: every emission carries the total, the current
   * step never decreases and never passes `n` apps' worth of keys, and after `n` apps it is
   * exactly that, whether or not their folders could be created.
   */
  lemma {:induction false} ProgressShape(io: seq<AppIo>, n: nat, total: nat)
    requires n <= |io|
    ensures var p := Progress(io, n, total);
      && (forall j :: 0 <= j < |p| ==> p[j].1 == total && p[j].0 <= n * |ArtworkKeys|)
      && (forall j, j' :: 0 <= j <= j' < |p| ==> p[j].0 <= p[j'].0)
      && (n > 0 ==> p != [] && p[|p| - 1].0 == n * |ArtworkKeys|)
  {
    if n > 0 {
      ProgressShape(io, n - 1, total);
      AppProgressShape(n - 1, io[n - 1].folderOk, total);
      ConcatSteps(Progress(io, n - 1, total), AppProgress(n - 1, io[n - 1].folderOk, total),
                  (n - 1) * |ArtworkKeys|, n * |ArtworkKeys|, total);
    }
  }

  /** The emissions for app `i` lie after `i` apps' worth of keys and end at `i + 1` apps' worth. */
  lemma AppProgressShape(i: nat, folderOk: bool, total: nat)
    ensures var a := AppProgress(i, folderOk, total);
      && a != [] && a[|a| - 1].0 == (i + 1) * |ArtworkKeys|
      && (forall j :: 0 <= j < |a| ==> a[j].1 == total && i * |ArtworkKeys| < a[j].0 <= (i + 1) * |ArtworkKeys|)
      && (forall j, j' :: 0 <= j <= j' < |a| ==> a[j].0 <= a[j'].0)
  {
  }

  /**
   * Appending steps that lie between `lo` and `hi` to steps that stay within `lo` keeps the
   * order and the total, and ends where the appended steps end.
   */
  lemma ConcatSteps(p: seq<(nat, nat)>, a: seq<(nat, nat)>, lo: nat, hi: nat, total: nat)
    requires forall j :: 0 <= j < |p| ==> p[j].1 == total && p[j].0 <= lo
    requires forall j, j' :: 0 <= j <= j' < |p| ==> p[j].0 <= p[j'].0
    requires forall j :: 0 <= j < |a| ==> a[j].1 == total && lo <= a[j].0 <= hi
    requires forall j, j' :: 0 <= j <= j' < |a| ==> a[j].0 <= a[j'].0
    requires a != []
    ensures forall j :: 0 <= j < |p + a| ==> (p + a)[j].1 == total && (p + a)[j].0 <= hi
    ensures forall j, j' :: 0 <= j <= j' < |p + a| ==> (p + a)[j].0 <= (p + a)[j'].0
    ensures (p + a)[|p + a| - 1] == a[|a| - 1]
  {
    assert lo <= a[0].0 <= hi;
    forall j | 0 <= j < |p + a|
      ensures (p + a)[j].1 == total && (p + a)[j].0 <= hi
    {
      if j < |p| {
        assert (p + a)[j] == p[j];
      } else {
        assert (p + a)[j] == a[j - |p|];
      }
    }
  }

  /**
   * All the progress `run` emits: each emission carries the total, the current step never
   * decreases and never exceeds the total, and the last emission is `(total, total)`.
   */
  lemma RunProgress(io: seq<AppIo>)
    ensures var total := |io| * |ArtworkKeys|;
      var p := Progress(io, |io|, total) + [(total, total)];
      && p[|p| - 1] == (total, total)
      && (forall j :: 0 <= j < |p| ==> p[j].1 == total && p[j].0 <= total)
      && (forall j, j' :: 0 <= j <= j' < |p| ==> p[j].0 <= p[j'].0)
  {
    var total := |io| * |ArtworkKeys|;
    ProgressShape(io, |io|, total);
    var q := Progress(io, |io|, total);
    ConcatSteps(q, [(total, total)], total, total, total);
  }

  /** The keys whose artwork is saved, among the first `n`. */
  function SavedKeys(io: AppIo, n: nat): set<nat>
    requires Fits(io) && n <= |ArtworkKeys|
  {
    set k | 0 <= k < n && SavedAt(io, k)
  }

  /** `local_saved` counts exactly the keys whose artwork was downloaded, mapped and written. */
  lemma {:induction false} SavedCountSpec(io: AppIo, n: nat)
    requires Fits(io) && n <= |ArtworkKeys|
    ensures SavedCount(io, n) == |SavedKeys(io, n)|
  {
    if n > 0 {
      SavedCountSpec(io, n - 1);
      var before, after := SavedKeys(io, n - 1), SavedKeys(io, n);
      assert n - 1 !in before;
      if SavedAt(io, n - 1) {
        assert forall k :: k in after <==> k in before + {n - 1};
        assert after == before + {n - 1};
      } else {
        assert forall k :: k in after <==> k in before;
        assert after == before;
      }
    }
  }

  /** The apps, among the first `n`, whose folder was created and at least one artwork saved. */
  function SuccessfulApps(io: seq<AppIo>, n: nat): set<nat>
    requires AllFit(io) && n <= |io|
  {
    set i | 0 <= i < n && io[i].folderOk && SavedCount(io[i], |ArtworkKeys|) > 0
  }

  /**
   * `success_count` counts exactly the apps whose folder was created and which had at least
   * one artwork saved, so it never exceeds the number of apps.
   */
  lemma {:induction false} SuccessCountSpec(installRoot: Path, appIds: seq<string>, io: seq<AppIo>, n: nat)
    requires |io| == |appIds| && AllFit(io) && n <= |appIds|
    ensures CountDownloaded(Reports(installRoot, appIds, io, n)) == |SuccessfulApps(io, n)| <= n
  {
    if n > 0 {
      SuccessCountSpec(installRoot, appIds, io, n - 1);
      var rs := Reports(installRoot, appIds, io, n);
      assert rs[..n - 1] == Reports(installRoot, appIds, io, n - 1);
      SuccessfulAppsStep(io, n);
    }
  }

  lemma SuccessfulAppsStep(io: seq<AppIo>, n: nat)
    requires AllFit(io) && 0 < n <= |io|
    ensures |SuccessfulApps(io, n)| ==
      |SuccessfulApps(io, n - 1)| + if io[n - 1].folderOk && SavedCount(io[n - 1], |ArtworkKeys|) > 0 then 1 else 0
  {
    var before, after := SuccessfulApps(io, n - 1), SuccessfulApps(io, n);
    assert n - 1 !in before;
    if io[n - 1].folderOk && SavedCount(io[n - 1], |ArtworkKeys|) > 0 {
      assert forall i :: i in after <==> i in before + {n - 1};
      assert after == before + {n - 1};
    } else {
      assert forall i :: i in after <==> i in before;
      assert after == before;
    }
  }
}
