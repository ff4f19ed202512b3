/**
 * The downloader tab's own state: the request typed into the input box, the status and
 * two-line inline log, and the grid of previews filled as items finish.
 */
module DownloaderView {
  import opened Wrappers
  import opened Text
  import opened Bytes
  import opened Downloader
  import opened GridLayout

  // ---------------------------------------------------------------------------------------
  // The inline log (`update_inline_log`)

  /** The lines the log label keeps after `message` arrives while it shows `current`. */
  function LogLines(current: string, message: string): seq<string> {
    var lines := (if current != "" then SplitOn(current, '\n') else []) + [message];
    if |lines| > 2 then lines[|lines| - 2..] else lines
  }

  /** The log label's text after `message` arrives while it shows `current`. */
  function InlineLog(current: string, message: string): string {
    Join("\n", LogLines(current, message))
  }

  /**
   * At most two lines are kept: the new message last, preceded by the last line shown before
   * when there was any text.
   */
  lemma LogLinesSpec(current: string, message: string)
    ensures var r := LogLines(current, message);
      && 1 <= |r| <= 2 && r[|r| - 1] == message
      && (current == "" ==> r == [message])
      && (current != "" ==> r == [Last(SplitOn(current, '\n')), message])
  {
  }

  function Last(lines: seq<string>): string
    requires lines != []
  {
    lines[|lines| - 1]
  }

  /** Reading the label back line by line gives the kept lines, when the message is one line. */
  lemma InlineLogReadBack(current: string, message: string)
    requires '\n' !in message
    ensures SplitOn(InlineLog(current, message), '\n') == LogLines(current, message)
  {
    var r := LogLines(current, message);
    LogLinesSpec(current, message);
    assert "\n" == ['\n'];
    SplitOnJoin(r, '\n');
  }

  /** Whatever the label showed, two one-line messages leave exactly those two lines. */
  lemma InlineLogLastTwo(current: string, m1: string, m2: string)
    requires '\n' !in m1 && m1 != ""
    ensures InlineLog(InlineLog(current, m1), m2) == m1 + "\n" + m2
  {
    var t := InlineLog(current, m1);
    InlineLogReadBack(current, m1);
    LogLinesSpec(current, m1);
    assert t != "" by {
      if current != "" {
        var x := Last(SplitOn(current, '\n'));
        assert [x, m1][1..] == [m1];
        assert t == x + "\n" + Join("\n", [m1]);
      }
    }
    LogLinesSpec(t, m2);
    assert LogLines(t, m2) == [m1, m2];
    assert [m1, m2][1..] == [m2];
    assert Join("\n", [m1, m2]) == m1 + "\n" + Join("\n", [m2]);
  }

  // ---------------------------------------------------------------------------------------
  // The tab (`DownloaderTab`)

  /** A preview in the two-column grid: the artwork key shown and its cell. */
  datatype Preview = Preview(key: string, row: nat, col: nat)

  /** The keys whose download is non-empty, in order: the ones `on_item_finished` shows. */
  function ShownKeys(results: seq<(string, Image)>): seq<string> {
    if results == [] then []
    else
      var last := results[|results| - 1];
      ShownKeys(results[..|results| - 1]) + (if HasData(last.1) then [last.0] else [])
  }

  /** A key gets a preview exactly when one of its downloads is non-empty. */
  lemma {:induction false} ShownKeysSpec(results: seq<(string, Image)>, k: string)
    ensures k in ShownKeys(results) <==> exists j :: 0 <= j < |results| && results[j].0 == k && HasData(results[j].1)
    ensures |ShownKeys(results)| <= |results|
  {
    if results != [] {
      var n := |results| - 1;
      var init := results[..n];
      ShownKeysSpec(init, k);
      if exists j :: 0 <= j < |results| && results[j].0 == k && HasData(results[j].1) {
        var j :| 0 <= j < |results| && results[j].0 == k && HasData(results[j].1);
        if j < n {
          assert init[j] == results[j];
        }
      }
      if exists j :: 0 <= j < |init| && init[j].0 == k && HasData(init[j].1) {
        var j :| 0 <= j < |init| && init[j].0 == k && HasData(init[j].1);
        assert results[j] == init[j];
      }
    }
  }

  /** Previews of `keys` placed one after another from cell `start`, two per row. */
  function Placed(keys: seq<string>, start: nat): seq<Preview> {
    seq(|keys|, j requires 0 <= j < |keys| => Preview(keys[j], Cell(start + j).0, Cell(start + j).1))
  }

  /** The cursor (`row`, `col`) sits just after the last of `previews`, and preview `j` is in cell `j`. */
  predicate GridOk(previews: seq<Preview>, row: nat, col: nat) {
    && col < 2 && |previews| == 2 * row + col
    && forall j :: 0 <= j < |previews| ==> (previews[j].row, previews[j].col) == Cell(j)
  }

  /** Placing a preview at the cursor and advancing it (a new row after the second column). */
  lemma GridNext(previews: seq<Preview>, row: nat, col: nat, key: string)
    requires GridOk(previews, row, col)
    ensures var ps := previews + [Preview(key, row, col)];
      if col + 1 > 1 then GridOk(ps, row + 1, 0) else GridOk(ps, row, col + 1)
    ensures (row, col) == Cell(|previews|)
  {
  }

  /**
   * The IDs a download starts with for the parsed input `request`: the typed IDs, or the app ID
   * picked in the search dialog (`choice`, None when cancelled); None when nothing starts.
   */
  function StartedIds(request: Request, choice: Option<string>): Option<seq<string>> {
    match request
    case NoRequest => None
    case AppIds(ids) => Some(ids)
    case SearchFor(_) => if choice.Some? then Some([choice.value]) else None
  }

  /** The status shown once a download starts. */
  const StartingStatus: string := "Starting download..."

  class DownloaderTab {
    var inputText: string
    var fetchEnabled: bool
    var statusText: string
    var logText: string
    var lastSavedPath: string
    var gridRow: nat
    var gridCol: nat
    var previews: seq<Preview>

    /** The grid cursor sits just after the last preview, and preview `j` is in cell `j`. */
    predicate Valid()
      reads this
    {
      GridOk(previews, gridRow, gridCol)
    }

    constructor()
      ensures Valid() && inputText == "" && fetchEnabled && statusText == "Idle" && logText == ""
      ensures lastSavedPath == "" && previews == []
    {
      inputText := "";
      fetchEnabled := true;
      statusText := "Idle";
      logText := "";
      lastSavedPath := "";
      gridRow, gridCol := 0, 0;
      previews := [];
    }

    /**
     * `start_download`: the IDs handed to a new worker, or None when nothing starts.  A started
     * download disables the button, clears the previews and, after a search, shows the chosen
     * ID in the input box; when nothing starts nothing changes.  `choice` is the app ID picked
     * in the search dialog, None when it is cancelled.
     */
    method StartDownload(choice: Option<string>) returns (targetIds: Option<seq<string>>)
      requires Valid()
      modifies this
      ensures Valid()
      ensures targetIds == StartedIds(ParseInput(old(inputText)), choice)
      ensures targetIds.None? ==> unchanged(this)
      ensures targetIds.Some? ==>
        && !fetchEnabled && statusText == StartingStatus && previews == []
        && inputText == (if ParseInput(old(inputText)).SearchFor? then choice.value else old(inputText))
        && logText == old(logText) && lastSavedPath == old(lastSavedPath)
    {
      var request := ParseInput(inputText);
      targetIds := Begin(request, choice);
    }

    /** The state change of `start_download` once the input has been parsed as `request`. */
    method Begin(request: Request, choice: Option<string>) returns (targetIds: Option<seq<string>>)
      requires Valid()
      modifies this
      ensures Valid()
      ensures targetIds == StartedIds(request, choice)
      ensures targetIds.None? ==> unchanged(this)
      ensures targetIds.Some? ==> !fetchEnabled && statusText == StartingStatus && previews == []
      ensures targetIds.Some? ==> inputText == if request.SearchFor? then choice.value else old(inputText)
      ensures logText == old(logText) && lastSavedPath == old(lastSavedPath)
    {
      targetIds := StartedIds(request, choice);
      if targetIds.Some? {
        Reset(if request.SearchFor? then choice.value else inputText);
      }
    }

    /** What a started download does to the tab: `text` in the input box, button off, grid cleared. */
    method Reset(text: string)
      modifies this
      ensures Valid()
      ensures (inputText, fetchEnabled, statusText, previews) == (text, false, StartingStatus, [])
      ensures (logText, lastSavedPath) == old((logText, lastSavedPath))
    {
      inputText, fetchEnabled, statusText := text, false, StartingStatus;
      previews, gridRow, gridCol := [], 0, 0;
      assert GridOk(previews, gridRow, gridCol);
    }

    /**
     * `on_item_finished`: shows the message, remembers a non-empty saved path, and places a
     * preview for each non-empty download after the ones already shown.
     */
    method OnItemFinished(results: seq<(string, Image)>, message: string, savedPath: string)
      requires Valid()
      modifies this
      ensures Valid()
      ensures statusText == message
      ensures lastSavedPath == if savedPath != "" then savedPath else old(lastSavedPath)
      ensures previews == old(previews) + Placed(ShownKeys(results), |old(previews)|)
      ensures inputText == old(inputText) && fetchEnabled == old(fetchEnabled) && logText == old(logText)
    {
      var shown, row, col := previews, gridRow, gridCol;
      for i := 0 to |results|
        invariant unchanged(this)
        invariant GridOk(shown, row, col)
        invariant shown == previews + Placed(ShownKeys(results[..i]), |previews|)
      {
        ShownKeysNext(results, i);
        if HasData(results[i].1) {
          PlacedNext(ShownKeys(results[..i]), results[i].0, |previews|);
          GridNext(shown, row, col, results[i].0);
          shown := shown + [Preview(results[i].0, row, col)];
          col := col + 1;
          if col > 1 {
            col := 0;
            row := row + 1;
          }
        }
      }
      assert results[..|results|] == results;
      statusText := message;
      if savedPath != "" {
        lastSavedPath := savedPath;
      }
      previews, gridRow, gridCol := shown, row, col;
    }

    /** `update_inline_log`. */
    method UpdateInlineLog(message: string)
      modifies this
      ensures logText == InlineLog(old(logText), message)
      ensures inputText == old(inputText) && fetchEnabled == old(fetchEnabled) && statusText == old(statusText)
      ensures lastSavedPath == old(lastSavedPath) && gridRow == old(gridRow) && gridCol == old(gridCol)
      ensures previews == old(previews)
    {
      var lines := if logText != "" then SplitOn(logText, '\n') else [];
      lines := lines + [message];
      if |lines| > 2 {
        lines := lines[|lines| - 2..];
      }
      logText := Join("\n", lines);
    }
  }

  lemma ShownKeysNext(results: seq<(string, Image)>, i: nat)
    requires i < |results|
    ensures ShownKeys(results[..i + 1])
      == ShownKeys(results[..i]) + (if HasData(results[i].1) then [results[i].0] else [])
  {
    assert results[..i + 1][..i] == results[..i];
  }

  lemma PlacedNext(keys: seq<string>, key: string, start: nat)
    ensures Placed(keys + [key], start) == Placed(keys, start) + [Preview(key, Cell(start + |keys|).0, Cell(start + |keys|).1)]
  {
  }
}
