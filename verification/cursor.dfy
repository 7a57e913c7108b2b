/**
 The wrap-around selection cursor shared by the menu (`App::next`,
 `App::previous`) and the file browser (`App::file_browser_next`,
 `App::file_browser_previous`), over a list of `len` items.
 */
module Cursor {
  import opened Options

  /** One step down: from the last index (or any later one) back to the
      first; with nothing selected, the first. */
  function WrapNext(sel: Option<nat>, len: nat): (r: nat)
    requires len > 0
    ensures r < len
    ensures sel.Some? && sel.value < len ==> r == (sel.value + 1) % len
    ensures sel.Some? && sel.value >= len ==> r == 0
    ensures sel.None? ==> r == 0
  {
    match sel
    case None => 0
    case Some(i) =>
      if i >= len - 1 then 0 else i + 1
  }

  /** One step up: from the first index to the last; with nothing selected,
      the first. A stale index past the end only steps down by one. */
  function WrapPrevious(sel: Option<nat>, len: nat): (r: nat)
    requires len > 0
    ensures sel.Some? && sel.value < len ==> r < len && r == (sel.value + len - 1) % len
    ensures sel.Some? && sel.value >= len ==> r == sel.value - 1
    ensures sel.None? ==> r == 0
  {
    match sel
    case None => 0
    case Some(i) =>
      if i == 0 then
        ModSmall(len - 1, len);
        len - 1
      else
        ModWrap(i - 1, len);
        i - 1
  }

  /** Helpers for the wrap-around step of `WrapPrevious`. */
  lemma ModSmall(a: nat, len: nat)
    requires a < len
    ensures a % len == a
  {
  }

  /** `a` may be a stale index past the end, so the fact is guarded. */
  lemma ModWrap(a: nat, len: nat)
    requires len > 0
    ensures a < len ==> (a + len) % len == a
  {
  }

  lemma PreviousUndoesNext(i: nat, len: nat)
    requires i < len
    ensures WrapPrevious(Some(WrapNext(Some(i), len)), len) == i
  {
  }

  lemma NextUndoesPrevious(i: nat, len: nat)
    requires i < len
    ensures WrapNext(Some(WrapPrevious(Some(i), len)), len) == i
  {
  }
}
