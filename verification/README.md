# Server helper dashboard: state machine and file browser

A Dafny model of the interactive core of a terminal dashboard (`src/main.rs`).
The dashboard shows a seven-item menu. Some items run a status check or a
backup of Windows server roles. Others install Winget or NetBird. One opens a
file browser where a backup `.xml` file is picked for a restore.

The model covers these parts:

- **Cursors** (`Cursor`). The wrap-around highlight shared by the menu
  (`App::next`, `App::previous`) and the browser (`App::file_browser_next`,
  `App::file_browser_previous`).
- **Paths and the filesystem** (`Paths`, `FileSystem`). A path is a root plus
  a sequence of components. `Parent` drops the last component, as
  `Path::parent` does. `Extension` follows `Path::extension`. The filesystem
  is a map from paths to `Dir(children, readable)` or `File`, and `ReadDir`
  yields the children of a readable directory in whatever order the map
  gives.
- **The listing** (`TextOrder`, `Listing`). `App::load_directory`: an optional
  `".."` entry, then the subdirectories, then the `.xml` files. Each group is
  sorted by name. The model sorts with an insertion sort and proves that the
  result is a sorted permutation. Sorted permutations are unique, so the
  result is the same as that of Rust's `sort`. The paths of one group share
  their directory, so `PathBuf` order among them is the order of their last
  components. That is the code-point order of the names.
- **The browser** (`Browsing`). `load_directory`, cursor movement,
  `file_browser_select` and the Backspace key.
- **The state machine** (`Machine`). `AppState`, `App::new`, the key handling
  of `run_app`, and the deferred step that turns `Installing` and `Restoring`
  into `Result`. One iteration takes at most one key event, handles it, then
  ticks. The five collaborator operations and the filesystem are the `World`
  of an iteration, and their answers are taken as given. Each iteration
  reports the collaborator calls it made.
- **The view** (`View`). The footer hint per state and the Success/Error
  framing of a result.
- **Scenarios** (`Scenarios`). A worked listing of a sample backup directory,
  and the menu highlight wrapping upwards.

Three behaviours of the code worth noting:

- In `Result`, `q` returns to the menu (src/main.rs:724-729). It does not end
  the program; the loop ends only from the menu.
- The `.xml` filter compares the extension with `"xml"` exactly, so it is
  case-sensitive (src/main.rs:475).
- The arrow characters of the two navigation hints are stored in the source
  as the text `â†‘/â†“` (src/main.rs:926-927). The footer constants hold
  exactly those characters.

## Model

| member | source | states |
|---|---|---|
| Cursor.WrapNext | src/main.rs:75-87 | The result is always a valid index. An in-range index `i` moves to `(i+1) mod len`, so the last index wraps to 0. A stale index past the end, or no selection, goes to 0. |
| Cursor.WrapPrevious | src/main.rs:89-101 | An in-range index `i` moves to `(i+len-1) mod len`, so 0 wraps to the last index and the result stays in range. A stale index past the end steps down by one. No selection goes to 0. |
| Cursor.PreviousUndoesNext | src/main.rs:75-101 | For every in-range index, stepping up after stepping down returns to it. |
| Cursor.NextUndoesPrevious | src/main.rs:75-101 | For every in-range index, stepping down after stepping up returns to it. |
| Machine.MenuNext | src/main.rs:75-87 | The menu highlight always lands on one of the seven items, and moves to the next item modulo 7. No selection gives item 0. |
| Machine.MenuPrevious | src/main.rs:89-101 | The menu highlight moves to the previous item modulo 7. No selection gives item 0. |
| Machine.MenuPreviousUndoesNext | src/main.rs:75-101 | Down then Up, and Up then Down, restore any highlighted menu item. |
| Paths.Parent | src/main.rs:460 | There is no parent exactly when the path has no components. Otherwise the parent keeps the root and, with the last component appended, gives back the path. |
| Paths.Join | src/main.rs:471-472 | `entry.path()`, the directory joined with the entry's name. It has no contract of its own; `Paths.ParentOfJoin` and `Paths.JoinInjective` characterise it. |
| Paths.ParentOfJoin | src/main.rs:471 | The parent of an entry that `read_dir` yields for a directory is that directory. |
| Paths.JoinInjective | src/main.rs:471 | Distinct names give distinct entry paths in one directory. |
| Paths.FileName | src/main.rs:475 | A file name is the last component. It is absent exactly when there are no components or the last one is `".."`. |
| Paths.LastDot | src/main.rs:475 | Finds the last dot of a name: the returned position holds a dot and no later position does. Without a result the name has no dot. |
| Paths.Extension | src/main.rs:475 | `Path::extension` of a name. It has no contract of its own; `Paths.ExtensionSpec` characterises it. |
| Paths.ExtensionSpec | src/main.rs:475 | An extension is the text after a dot that is not the first character, with no dot after it. There is none exactly for `".."` and for names with no dot past the first character. |
| Paths.IsXmlPath | src/main.rs:475 | The filter `path.extension() == Some("xml")`. It has no contract of its own; `Paths.IsXmlPathIffSuffix` and `Listing.JoinedXml` characterise it. |
| Paths.IsXmlPathIffSuffix | src/main.rs:475 | A path passes the filter iff its last component is not `".."` and ends in `.xml` with at least one character before the dot. |
| Paths.XmlExtensionIffSuffix | src/main.rs:475 | A name has extension exactly `xml` iff it ends in `.xml` with at least one character before the dot. The comparison is case-sensitive. |
| FileSystem.IsDir | src/main.rs:473 | `path.is_dir()`: false for files and missing paths. It has no contract of its own; `Listing.ListingUnreadable` and `Listing.KindAt` characterise it. |
| FileSystem.ReadDir | src/main.rs:467 | `read_dir` yields names only for a readable directory. |
| Listing.JoinedXml | src/main.rs:471-475 | For a child `dir.join(name)` that `read_dir` can yield, the filter passes iff the name ends in `.xml` with at least one character before the dot. |
| Listing.InGroup | src/main.rs:473-476 | The split of one `read_dir` entry: directories go to the directory group, non-directories with extension `xml` to the file group, anything else nowhere. It has no contract of its own; `Listing.GroupCount` and `Listing.JoinedXml` characterise it. |
| Listing.Group | src/main.rs:470-477 | The partition loop that collects one group in `read_dir` order. Its contract bounds its length; `Listing.GroupCount` characterises its contents. |
| Listing.GroupCount | src/main.rs:470-477 | The subdirectory group and the `.xml` group each hold every name of that kind exactly as often as `read_dir` yielded it, and nothing else. |
| TextOrder.StrLe | src/main.rs:480-482 | The order `sort()` uses on the entries of one directory, by code points of the last component. It has no contract of its own; `TextOrder.StrLeReflexive`, `TextOrder.StrLeAntisymmetric`, `TextOrder.StrLeTransitive` and `TextOrder.StrLeTotal` show it is a total order. |
| TextOrder.StrLeReflexive | src/main.rs:480-482 | Every name sorts no later than itself. |
| TextOrder.InsertSpec | src/main.rs:480-482 | Inserting a name into a sorted sequence keeps it sorted and adds exactly that name. |
| TextOrder.StrLeTransitive | src/main.rs:480-482 | The name order used for sorting is transitive. |
| TextOrder.StrLeAntisymmetric | src/main.rs:480-482 | Two names ordered both ways are equal. |
| TextOrder.StrLeTotal | src/main.rs:480-482 | Any two names are ordered one way or the other. |
| TextOrder.SortedPairs | src/main.rs:480-482 | In a sorted sequence, every name sorts no later than every name after it, not only the next one. |
| TextOrder.Insert | src/main.rs:480-482 | One step of the sort. It has no contract of its own; `TextOrder.InsertSpec` characterises it. |
| TextOrder.Sort | src/main.rs:480-482 | The `sort()` of each group. It has no contract of its own; `TextOrder.SortSpec` and `TextOrder.SortedUnique` characterise it. |
| TextOrder.SortSpec | src/main.rs:480-482 | Sorting yields a sorted sequence with exactly the same names and multiplicities. |
| TextOrder.SortedUnique | src/main.rs:480-482 | Two sorted sequences with the same names and multiplicities are equal. |
| TextOrder.SortOrderIndependent | src/main.rs:480-482 | The sorted result depends only on the names, not on the order they arrive in. |
| Listing.ListNames | src/main.rs:456-487 | The entries `load_directory` builds from the names `read_dir` yields. It has no contract of its own; `Listing.ListingOrderIndependent` characterises it. |
| Listing.ListDirectory | src/main.rs:456-487 | The list `load_directory` builds. It has no contract of its own; `Listing.ListingSound`, `Listing.ListingComplete`, `Listing.ListingOrdered` and `Listing.ListingUnreadable` characterise it. |
| Listing.HasParentEntry | src/main.rs:459-464 | The guard for the `".."` entry: the current directory has a parent and that parent is not the empty path. It has no contract of its own; `Listing.ListingMarkerFirst` characterises it. |
| Listing.ParentPart | src/main.rs:459-464 | The conditional push of `".."`. It holds at most one entry; `Listing.ListingMarkerFirst` and `Listing.ListingMarkerAt` characterise it. |
| Listing.ListingMarkerAt | src/main.rs:459-464 | A directory whose parent is a non-empty path is listed with `".."` first. |
| Listing.ListingDirAt | src/main.rs:483-485 | The `k`-th sorted subdirectory name, joined to the directory, sits right after the optional `".."`. |
| Listing.ListingFileAt | src/main.rs:483-486 | The `k`-th sorted `.xml` name, joined to the directory, sits after `".."` and all subdirectories. |
| Listing.EntryAt | src/main.rs:466-486 | Every entry past `".."` is its directory joined with a name that `read_dir` yielded and that belongs to the group at that position. |
| Listing.KindAt | src/main.rs:466-486 | In a well-formed filesystem, every entry past `".."` is a directory or a file according to its position, and its last component is the sorted name at that position. |
| Listing.ListingSound | src/main.rs:456-487 | Every listed entry is either the `".."` marker in front, for a directory with a non-empty parent, or a child that `read_dir` yielded and that is a directory or has extension `xml`. Nothing else appears. |
| Listing.ListingComplete | src/main.rs:466-487 | Every subdirectory and every `.xml` file that `read_dir` yields is listed. |
| Listing.ListingMarkerFirst | src/main.rs:459-464 | The first entry is `".."` exactly when the current directory has a non-empty parent. |
| Listing.ListingGrouped | src/main.rs:483-486 | Listed entries never decrease in rank: the marker, then directories, then files. Every directory precedes every file. |
| Listing.GroupSorted | src/main.rs:480-486 | Two entries of one group are of that group's kind and appear in name order. |
| Listing.SameKindSorted | src/main.rs:480-486 | Two listed entries of the same kind are not the marker and appear in name order. |
| Listing.ListingGroupsSorted | src/main.rs:480-486 | Within the directory group and within the file group, entries are in name order. The marker occurs at most once. |
| Listing.ListingOrdered | src/main.rs:456-487 | The full ordering contract of the listing: the marker first iff the parent is non-empty, then grouped by kind, each group sorted. |
| Listing.ListingOrderIndependent | src/main.rs:466-486 | Two `read_dir` results with the same names give the same listing, so listing an unchanged directory twice gives the same entries. |
| Listing.ListingUnreadable | src/main.rs:467 | A missing, non-directory or unreadable path lists only the optional `".."`. |
| Browsing.Load | src/main.rs:456-495 | Re-lists the directory from scratch. The highlight is on entry 0 when there are entries and absent when there are none. |
| Browsing.Next | src/main.rs:497-512 | A no-op on an empty listing. Otherwise it moves the highlight to `(i+1) mod len`, keeps it valid, and changes nothing but the highlight. |
| Browsing.Previous | src/main.rs:514-529 | A no-op on an empty listing. Otherwise it moves the highlight to `(i+len-1) mod len`, keeps it valid, and changes nothing but the highlight. |
| Browsing.PreviousUndoesNext | src/main.rs:497-529 | For a valid browser, Up after Down restores it. |
| Browsing.NextUndoesPrevious | src/main.rs:497-529 | For a valid browser, Down after Up restores it. |
| Browsing.Select | src/main.rs:531-553 | A file comes back exactly when the highlighted entry is neither `".."` nor a directory. A file comes back with the browser unchanged. Validity is kept. |
| Browsing.SelectParentEntry | src/main.rs:534-540 | Selecting `".."` re-lists the parent directory when there is one. Otherwise nothing changes. No file comes back. |
| Browsing.SelectDirectory | src/main.rs:541-545 | Selecting a directory enters it and re-lists it. No file comes back. |
| Browsing.SelectNothing | src/main.rs:531-553 | With no highlight, or a stale index, nothing changes and no file comes back. |
| Browsing.GoUp | src/main.rs:709-716 | Backspace re-lists the parent whenever `Path::parent` gives one, even the empty path. Without a parent, nothing changes. |
| Browsing.EnterThenParentEntry | src/main.rs:531-553 | Entering a subdirectory of a non-empty directory highlights `".."`. Selecting it gives back a fresh listing of the original directory. |
| Browsing.EnterThenGoUp | src/main.rs:709-716 | Entering a subdirectory and pressing Backspace gives back a fresh listing of the original directory. |
| Machine.Init | src/main.rs:47-73 | The program starts in the menu with item 0 highlighted, no file chosen, and the browser at the default directory. |
| Machine.Confirm | src/main.rs:666-694 | Enter in the menu ends the loop iff the item is Exit. Nothing happens off the items. A collaborator is called iff the item is an instant one, and its report is shown as is. An install item enters `Installing` for that item with no call, and only an install item does. The browser item enters `FileBrowser` with a fresh listing of the current directory. The highlight and the chosen file are kept. |
| Machine.Dispatch | src/main.rs:666-694 | Enter acts exactly when the highlight is on one of the seven items. |
| Machine.DispatchInjective | src/main.rs:666-694 | No two menu items share an action. |
| Machine.MenuEnterByIndex | src/main.rs:666-694 | Items 0, 2 and 4 show their collaborator's `(success, message)` as is. Items 1 and 3 enter `Installing` without running the install. Item 5 lists the browser's directory and enters the browser. Item 6 ends the loop. Any other index does nothing. |
| Machine.MenuKeys | src/main.rs:663-665 | In the menu, `q` ends the loop; Down/`j` and Up/`k` move the highlight; other keys are ignored. |
| Machine.BrowserKeys | src/main.rs:697-717 | In the browser, Esc/`q` returns to the menu; Down/`j` and Up/`k` move the highlight; Backspace goes up; other keys are ignored. |
| Machine.MenuKey | src/main.rs:662-695 | The key branch of the menu. It has no contract of its own; `Machine.MenuKeys` and `Machine.MenuEnterByIndex` characterise it. |
| Machine.BrowserKey | src/main.rs:697-717 | The key branch of the browser. It has no contract of its own; `Machine.BrowserKeys`, `Machine.RestoreWithinIteration` and `Machine.BrowserStaysOnDirectories` characterise it. |
| Machine.ResultKey | src/main.rs:724-729 | The key branch of the result screen. It has no contract of its own; `Machine.ResultAcknowledged` characterises it. |
| Machine.KeyStep | src/main.rs:660-731 | Only the menu can end the loop. `Installing` and `Restoring` ignore every key. Every key follows the transition table. The only calls a key makes are the menu's checks, and their reports are shown unchanged. `Restoring` is entered only with a chosen file. Valid highlights stay valid. |
| Machine.HandleEvent | src/main.rs:657-660 | Only key presses are acted on. A poll timeout, a non-key event, a repeat or a release changes nothing. |
| Machine.Tick | src/main.rs:735-790 | No busy state survives the tick. `Installing(item)` becomes `Result` with the install's report after one install call. `Restoring` becomes `Result` with the restore's report for the chosen file, or `Result(false, "No file selected.")` without a call. Other states and fields are untouched. |
| Machine.Iterate | src/main.rs:654-791 | After each iteration the state is never `Installing` or `Restoring`. At most one collaborator call is made. The loop is left only from the menu. Validity is kept. |
| Machine.Run | src/main.rs:654-792 | Over any input sequence, no busy state is left after an iteration, validity is kept, and there is at most one collaborator call per input. |
| Machine.ReachableStates | src/main.rs:654-792 | From start-up, after any inputs, the drawn state is never `Installing` or `Restoring`, and the menu highlight is on an item. |
| Machine.ExitsExactly | src/main.rs:662-692 | An iteration ends the loop iff the state is the menu and the key press is `q`, or Enter on Exit. |
| Machine.InstallWithinIteration | src/main.rs:736-762 | Confirming an install item makes exactly one install call in the same iteration and shows its report. |
| Machine.RestoreWithinIteration | src/main.rs:703-790 | Confirming a file in the browser records it, makes exactly one restore call on it in the same iteration, and shows its report. |
| Machine.RestoreAlwaysHasFile | src/main.rs:782-789 | From a drawn state, every entry into `Restoring` has a chosen file. So the synthesized "No file selected." result never occurs. |
| Machine.OpenBrowserRelists | src/main.rs:687-690 | Opening the browser re-lists the directory browsed last. It is not reset to the default. |
| Machine.BrowserStaysOnDirectories | src/main.rs:703-708 | In the browser, Enter on `".."` or a directory only updates the browser and stays in it. |
| Machine.ResultAcknowledged | src/main.rs:724-729 | In `Result`, Enter, Esc or `q` return to the menu, and any other key is ignored. |
| View.ScreenOf | src/main.rs:924-930 | A state is a busy screen exactly when it is `Installing` or `Restoring`. |
| View.Footer | src/main.rs:924-930 | The footer is the "Please wait..." hint exactly in the busy states. |
| View.FooterIdentifiesScreen | src/main.rs:924-930 | Two states show the same footer iff they are the same kind of screen: menu, browser, busy or result. |
| View.ResultPanel | src/main.rs:904-919 | The result title is `" Success "` exactly when the operation succeeded, and `" Error "` otherwise. The body is the message unchanged. |
| Scenarios.ListingOfFive | src/main.rs:456-487 | For any two `.xml` names, one other file and two subdirectories in `read_dir` order, the listing is `".."` (when present), the directories sorted, then the `.xml` files sorted. The other file is dropped. |
| Scenarios.SampleListing | src/main.rs:456-487 | A backup directory holding `b.xml`, `notes.txt`, `a.xml`, `sub2`, `sub1` lists as `..`, `sub1`, `sub2`, `a.xml`, `b.xml`. |
| Scenarios.MenuUpWraps | src/main.rs:89-101 | With the first menu item highlighted, Up highlights Exit. |

## Left out

- The bodies of the collaborator operations (src/main.rs:107-454, 555-633): `check_winget_status`, `install_winget`, `check_netbird_status`, `install_netbird`, `backup_server_roles` and `restore_server_roles`. They spawn PowerShell and winget processes, download files and sleep. They are functions of the `World`, and their `(bool, String)` answers are taken as given.
- `log_messages` and `add_log`: write-only diagnostics that are never shown.
- Terminal setup and teardown, and the 100 ms `event::poll` (src/main.rs:636-658). Input is a sequence of already-read events. `None` stands for a timeout or an event that is not a key.
- Layout, colours, borders, the emoji prefixes of entries, the browser title that shows the current directory, and the extra "please wait" frames drawn before a blocking call. These are rendering only.
- `dirs::document_dir()`: the default backup directory is a parameter of `Init`.
- The real `std::fs`: symbolic links, I/O errors on single entries (`entries.flatten()` skips them), and a filesystem changing while a directory is read. A directory is read as one snapshot from the map. A path is a directory exactly when the map says so.
- Path normalisation of `PathBuf` comparisons (for example `a/./b`). Paths are compared component by component as given.
- Errors of `terminal.draw`, `event::poll` and `event::read`, which end the program through `?`, are not modelled.
- Paths.Extension: an `OsStr` that is not valid Unicode is not modelled. Names are `string`s, and the sort order is code-point order, which matches Rust's byte order on UTF-8.
- Machine.Run: states no property of the calls beyond their number. Which calls are made is stated per iteration by `Machine.Iterate` and the lemmas about it.
