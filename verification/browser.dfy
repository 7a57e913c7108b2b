/**
 The file browser of the restore screen: current directory, its listing and
 the highlighted entry (`current_dir`, `dir_entries`, `file_list_state` of
 `App` in src/main.rs), with its navigation operations.
 */
module Browsing {
  import opened Options
  import opened Paths
  import opened FileSystem
  import opened Listing
  import Cursor

  datatype Browser = Browser(currentDir: Path, entries: seq<Path>, selected: Option<nat>)

  /** Nothing is highlighted exactly when the listing is empty; otherwise the
      highlight is on an entry. */
  predicate Valid(b: Browser)
  {
    && (b.selected.None? <==> |b.entries| == 0)
    && (b.selected.Some? ==> b.selected.value < |b.entries|)
  }

  /** `load_directory`: re-list `dir` from scratch and highlight its first
      entry, if any. */
  function Load(fs: FS, dir: Path): (b: Browser)
    ensures b.currentDir == dir
    ensures b.entries == ListDirectory(fs, dir)
    ensures Valid(b)
    ensures b.selected.Some? ==> b.selected.value == 0
  {
    var entries := ListDirectory(fs, dir);
    Browser(dir, entries, if |entries| > 0 then Some(0) else None)
  }

  /** `file_browser_next`: no-op on an empty listing. */
  function Next(b: Browser): (r: Browser)
    ensures r.currentDir == b.currentDir && r.entries == b.entries
    ensures |b.entries| == 0 ==> r == b
    ensures Valid(b) ==> Valid(r)
    ensures Valid(b) && |b.entries| > 0 ==> r.selected == Some((b.selected.value + 1) % |b.entries|)
  {
    if |b.entries| == 0 then b
    else b.(selected := Some(Cursor.WrapNext(b.selected, |b.entries|)))
  }

  /** `file_browser_previous`: no-op on an empty listing. */
  function Previous(b: Browser): (r: Browser)
    ensures r.currentDir == b.currentDir && r.entries == b.entries
    ensures |b.entries| == 0 ==> r == b
    ensures Valid(b) ==> Valid(r)
    ensures Valid(b) && |b.entries| > 0 ==>
      r.selected == Some((b.selected.value + |b.entries| - 1) % |b.entries|)
  {
    if |b.entries| == 0 then b
    else b.(selected := Some(Cursor.WrapPrevious(b.selected, |b.entries|)))
  }

  lemma PreviousUndoesNext(b: Browser)
    requires Valid(b)
    ensures Previous(Next(b)) == b
  {
    if |b.entries| > 0 {
      Cursor.PreviousUndoesNext(b.selected.value, |b.entries|);
    }
  }

  lemma NextUndoesPrevious(b: Browser)
    requires Valid(b)
    ensures Next(Previous(b)) == b
  {
    if |b.entries| > 0 {
      Cursor.NextUndoesPrevious(b.selected.value, |b.entries|);
    }
  }

  /** The highlighted entry is a file: neither the `".."` marker nor a
      directory. */
  predicate OnFile(fs: FS, b: Browser)
  {
    && b.selected.Some? && b.selected.value < |b.entries|
    && b.entries[b.selected.value] != ParentMarker
    && !IsDir(fs, b.entries[b.selected.value])
  }

  /** The browser after resolving the highlighted entry, and the file it
      yields, if any. */
  datatype Picked = Picked(browser: Browser, file: Option<Path>)

  /** `file_browser_select`: `".."` moves to the parent, a directory is
      entered, a file is handed back with nothing changed. */
  function Select(fs: FS, b: Browser): (r: Picked)
    ensures r.file.Some? <==> OnFile(fs, b)
    ensures r.file.Some? ==> r.browser == b && r.file.value == b.entries[b.selected.value]
    ensures Valid(b) ==> Valid(r.browser)
  {
    match b.selected
    case None => Picked(b, None)
    case Some(i) =>
      if i >= |b.entries| then Picked(b, None)
      else
        var e := b.entries[i];
        if e == ParentMarker then
          (match Parent(b.currentDir)
           case Some(p) => Picked(Load(fs, p), None)
           case None => Picked(b, None))
        else if IsDir(fs, e) then Picked(Load(fs, e), None)
        else Picked(b, Some(e))
  }

  /** Selecting `".."` re-lists the parent directory, if there is one. */
  lemma SelectParentEntry(fs: FS, b: Browser)
    requires b.selected.Some? && b.selected.value < |b.entries|
    requires b.entries[b.selected.value] == ParentMarker
    ensures Parent(b.currentDir).Some? ==> Select(fs, b) == Picked(Load(fs, Parent(b.currentDir).value), None)
    ensures Parent(b.currentDir).None? ==> Select(fs, b) == Picked(b, None)
  {
  }

  /** Selecting a directory enters it and re-lists it. */
  lemma SelectDirectory(fs: FS, b: Browser)
    requires b.selected.Some? && b.selected.value < |b.entries|
    requires b.entries[b.selected.value] != ParentMarker && IsDir(fs, b.entries[b.selected.value])
    ensures Select(fs, b) == Picked(Load(fs, b.entries[b.selected.value]), None)
  {
  }

  /** With nothing highlighted, or a stale index, nothing happens. */
  lemma SelectNothing(fs: FS, b: Browser)
    requires b.selected.None? || b.selected.value >= |b.entries|
    ensures Select(fs, b) == Picked(b, None)
  {
  }

  /** Backspace: move to the parent whenever `Path::parent` gives one (also
      the empty path, unlike the `".."` entry) and re-list. */
  function GoUp(fs: FS, b: Browser): (r: Browser)
    ensures Parent(b.currentDir).None? ==> r == b
    ensures Parent(b.currentDir).Some? ==> r == Load(fs, Parent(b.currentDir).value)
    ensures Valid(b) ==> Valid(r)
  {
    match Parent(b.currentDir)
    case Some(p) => Load(fs, p)
    case None => b
  }

  /** Entering a subdirectory of a directory other than the empty path and
      then selecting the `".."` entry, which the fresh listing highlights,
      comes back to a fresh listing of the original directory. */
  lemma EnterThenParentEntry(fs: FS, b: Browser)
    requires b.selected.Some? && b.selected.value < |b.entries|
    requires b.entries[b.selected.value] != ParentMarker && IsDir(fs, b.entries[b.selected.value])
    requires Parent(b.entries[b.selected.value]) == Some(b.currentDir)
    requires b.currentDir != EmptyPath
    ensures Select(fs, b).browser.currentDir == b.entries[b.selected.value]
    ensures Select(fs, Select(fs, b).browser) == Picked(Load(fs, b.currentDir), None)
  {
    var sub := b.entries[b.selected.value];
    var b1 := Load(fs, sub);
    assert HasParentEntry(sub);
    ListingMarkerAt(fs, sub);
  }

  /** Entering a subdirectory and then pressing Backspace comes back to a
      fresh listing of the original directory. */
  lemma EnterThenGoUp(fs: FS, b: Browser)
    requires b.selected.Some? && b.selected.value < |b.entries|
    requires b.entries[b.selected.value] != ParentMarker && IsDir(fs, b.entries[b.selected.value])
    requires Parent(b.entries[b.selected.value]) == Some(b.currentDir)
    ensures GoUp(fs, Select(fs, b).browser) == Load(fs, b.currentDir)
  {
  }
}
