/**
 The application state machine of the dashboard (`AppState`, `App` and the
 loop body of `run_app` in src/main.rs).

 One loop iteration takes at most one key event (`None` stands for a poll
 that timed out or an event that is not a key), handles it in the current
 state, then runs the deferred "tick" that resolves `Installing` and
 `Restoring` into `Result`. The collaborator operations (status checks,
 installs, backup, restore) and the filesystem are the `World` of that
 iteration: whatever they answer is taken as given.
 */
module Machine {
  import opened Options
  import opened Paths
  import opened FileSystem
  import opened Browsing
  import Cursor

  datatype InstallItem = Winget | NetBird

  datatype AppState =
    | Menu
    | Installing(item: InstallItem)
    | FileBrowser
    | Restoring
    | Result(success: bool, message: string)

  /** The `(bool, String)` a collaborator operation returns. */
  datatype Report = Report(success: bool, message: string)

  /** The collaborator operations the menu runs directly. */
  datatype Check = CheckWinget | CheckNetBird | BackupRoles

  /** A collaborator call made during an iteration. */
  datatype Call = RunCheck(op: Check) | RunInstall(item: InstallItem) | RunRestore(file: Path)

  /** The filesystem and the collaborators' answers during one iteration. */
  datatype World = World(
    fs: FS,
    check: Check -> Report,
    install: InstallItem -> Report,
    restore: Path -> Report)

  const MenuItems: seq<string> := [
    "Check Winget Status",
    "Install Winget",
    "Check NetBird Status",
    "Install NetBird",
    "Backup Server Roles & Features",
    "Restore Server Roles & Features",
    "Exit"
  ]

  /** The message of the result synthesized when a restore finds no file. */
  const NoFileSelected: string := "No file selected."

  /** What confirming a menu item does. */
  datatype Action = Instant(op: Check) | LongRunning(item: InstallItem) | OpenBrowser | Exit

  /** The menu's dispatch table; no action for no or a stale selection. */
  function Dispatch(sel: Option<nat>): (a: Option<Action>)
    ensures a.Some? <==> sel.Some? && sel.value < |MenuItems|
  {
    match sel
    case None => None
    case Some(i) =>
      if i == 0 then Some(Instant(CheckWinget))
      else if i == 1 then Some(LongRunning(Winget))
      else if i == 2 then Some(Instant(CheckNetBird))
      else if i == 3 then Some(LongRunning(NetBird))
      else if i == 4 then Some(Instant(BackupRoles))
      else if i == 5 then Some(OpenBrowser)
      else if i == 6 then Some(Exit)
      else None
  }

  /** Every menu item has its own action. */
  lemma DispatchInjective(i: nat, j: nat)
    requires i < |MenuItems| && j < |MenuItems|
    requires Dispatch(Some(i)) == Dispatch(Some(j))
    ensures i == j
  {
  }

  datatype App = App(
    state: AppState,
    menuSelected: Option<nat>,
    browser: Browser,
    selectedFile: Option<Path>)

  /** `App::new`, with the default backup directory as a parameter. */
  function Init(defaultDir: Path): (app: App)
    ensures Valid(app) && app.state == Menu && app.menuSelected == Some(0)
    ensures app.browser.currentDir == defaultDir && app.selectedFile.None?
  {
    App(Menu, Some(0), Browser(defaultDir, [], None), None)
  }

  /** The menu highlight is on an item, and the browser's highlight is on an
      entry whenever there are entries. */
  predicate Valid(app: App)
  {
    && app.menuSelected.Some? && app.menuSelected.value < |MenuItems|
    && Browsing.Valid(app.browser)
  }

  /** The two states whose blocking call the next tick makes. */
  predicate Busy(s: AppState)
  {
    s.Installing? || s.Restoring?
  }

  /** The result screen showing a collaborator's report. */
  function ResultOf(r: Report): AppState
  {
    Result(r.success, r.message)
  }

  /** `App::next` on the menu. */
  function MenuNext(sel: Option<nat>): (r: Option<nat>)
    ensures r.Some? && r.value < |MenuItems|
    ensures sel.Some? && sel.value < |MenuItems| ==> r.value == (sel.value + 1) % |MenuItems|
    ensures sel.None? ==> r == Some(0)
  {
    Some(Cursor.WrapNext(sel, |MenuItems|))
  }

  /** `App::previous` on the menu. */
  function MenuPrevious(sel: Option<nat>): (r: Option<nat>)
    ensures r.Some?
    ensures sel.Some? && sel.value < |MenuItems| ==>
      r.value < |MenuItems| && r.value == (sel.value + |MenuItems| - 1) % |MenuItems|
    ensures sel.None? ==> r == Some(0)
  {
    Some(Cursor.WrapPrevious(sel, |MenuItems|))
  }

  datatype KeyCode = Up | Down | Enter | Esc | Backspace | Char(c: char) | OtherKey

  datatype KeyKind = Press | Repeat | Release

  datatype KeyEvent = KeyEvent(code: KeyCode, kind: KeyKind)

  /** The outcome of handling one key: leave the loop, or go on with the
      updated application and the collaborator call made, if any. */
  datatype Step = Quit | Stay(app: App, call: Option<Call>)

  /** The state changes a key may cause (the table of the state machine,
      without the ticks). */
  predicate KeyTransition(s: AppState, t: AppState)
  {
    match s
    case Menu => t.Menu? || t.Result? || t.Installing? || t.FileBrowser?
    case FileBrowser => t.FileBrowser? || t.Restoring? || t.Menu?
    case Result(_, _) => t == s || t.Menu?
    case Installing(_) => t == s
    case Restoring => t == s
  }

  /** Enter in the menu: the highlighted item's action. */
  function Confirm(app: App, w: World): (r: Step)
    requires app.state == Menu
    ensures r.Quit? <==> Dispatch(app.menuSelected) == Some(Exit)
    ensures Dispatch(app.menuSelected).None? ==> r == Stay(app, None)
    // only the instant items call a collaborator, and show its report as is
    ensures r.Stay? && r.call.Some? <==> Dispatch(app.menuSelected).Some? && Dispatch(app.menuSelected).value.Instant?
    ensures r.Stay? && r.call.Some? ==>
      r.call.value == RunCheck(Dispatch(app.menuSelected).value.op) && r.app == app.(state := ResultOf(w.check(r.call.value.op)))
    // the long-running items are deferred to the tick
    ensures r.Stay? && r.app.state.Installing? ==>
      r.call.None? && Dispatch(app.menuSelected) == Some(LongRunning(r.app.state.item))
    ensures Dispatch(app.menuSelected).Some? && Dispatch(app.menuSelected).value.LongRunning? ==>
      r == Stay(app.(state := Installing(Dispatch(app.menuSelected).value.item)), None)
    ensures r.Stay? && r.app.state.FileBrowser? ==> r.app.browser == Load(w.fs, app.browser.currentDir)
    ensures Dispatch(app.menuSelected) == Some(OpenBrowser) ==>
      r == Stay(app.(browser := Load(w.fs, app.browser.currentDir), state := FileBrowser), None)
    ensures r.Stay? ==> r.app.menuSelected == app.menuSelected && r.app.selectedFile == app.selectedFile
  {
    match Dispatch(app.menuSelected)
    case None => Stay(app, None)
    case Some(Instant(op)) => Stay(app.(state := ResultOf(w.check(op))), Some(RunCheck(op)))
    case Some(LongRunning(item)) => Stay(app.(state := Installing(item)), None)
    case Some(OpenBrowser) =>
      Stay(app.(browser := Load(w.fs, app.browser.currentDir), state := FileBrowser), None)
    case Some(Exit) => Quit
  }

  function MenuKey(app: App, key: KeyCode, w: World): Step
    requires app.state == Menu
  {
    match key
    case Char('q') => Quit
    case Down | Char('j') => Stay(app.(menuSelected := MenuNext(app.menuSelected)), None)
    case Up | Char('k') => Stay(app.(menuSelected := MenuPrevious(app.menuSelected)), None)
    case Enter => Confirm(app, w)
    case _ => Stay(app, None)
  }

  function BrowserKey(app: App, key: KeyCode, w: World): Step
  {
    match key
    case Esc | Char('q') => Stay(app.(state := Menu), None)
    case Down | Char('j') => Stay(app.(browser := Next(app.browser)), None)
    case Up | Char('k') => Stay(app.(browser := Previous(app.browser)), None)
    case Enter =>
      var picked := Select(w.fs, app.browser);
      if picked.file.Some? then
        Stay(app.(browser := picked.browser, selectedFile := picked.file, state := Restoring), None)
      else
        Stay(app.(browser := picked.browser), None)
    case Backspace => Stay(app.(browser := GoUp(w.fs, app.browser)), None)
    case _ => Stay(app, None)
  }

  function ResultKey(app: App, key: KeyCode): Step
  {
    match key
    case Enter | Esc | Char('q') => Stay(app.(state := Menu), None)
    case _ => Stay(app, None)
  }

  /** The handling of one key press in the current state. */
  function KeyStep(app: App, key: KeyCode, w: World): (r: Step)
    // only the menu can end the loop
    ensures r.Quit? ==> app.state == Menu
    // busy states absorb every key
    ensures Busy(app.state) ==> r == Stay(app, None)
    ensures r.Stay? ==> KeyTransition(app.state, r.app.state)
    // the only calls made here are the menu's instant ones, and their report
    // is shown unmodified; no install or restore runs on a key
    ensures r.Stay? && r.call.Some? ==>
      && app.state == Menu && r.call.value.RunCheck?
      && r.app.state == ResultOf(w.check(r.call.value.op))
    ensures r.Stay? && r.app.state.Result? && !app.state.Result? ==> r.call.Some?
    // a restore is only ever started with a file
    ensures r.Stay? && r.app.state.Restoring? && !app.state.Restoring? ==> r.app.selectedFile.Some?
    ensures Valid(app) && r.Stay? ==> Valid(r.app)
  {
    match app.state
    case Menu => MenuKey(app, key, w)
    case FileBrowser => BrowserKey(app, key, w)
    case Installing(_) => Stay(app, None)
    case Restoring => Stay(app, None)
    case Result(_, _) => ResultKey(app, key)
  }

  /** The menu's Enter, by highlighted index: items 0, 2 and 4 show their
      collaborator's report as is; 1 and 3 only switch to `Installing`; 5
      lists the browser's directory; 6 ends the loop. */
  lemma MenuEnterByIndex(app: App, w: World, i: nat)
    requires app.state == Menu && app.menuSelected == Some(i)
    ensures i == 0 ==> KeyStep(app, Enter, w) == Stay(app.(state := Result(w.check(CheckWinget).success, w.check(CheckWinget).message)), Some(RunCheck(CheckWinget)))
    ensures i == 1 ==> KeyStep(app, Enter, w) == Stay(app.(state := Installing(Winget)), None)
    ensures i == 2 ==> KeyStep(app, Enter, w) == Stay(app.(state := Result(w.check(CheckNetBird).success, w.check(CheckNetBird).message)), Some(RunCheck(CheckNetBird)))
    ensures i == 3 ==> KeyStep(app, Enter, w) == Stay(app.(state := Installing(NetBird)), None)
    ensures i == 4 ==> KeyStep(app, Enter, w) == Stay(app.(state := Result(w.check(BackupRoles).success, w.check(BackupRoles).message)), Some(RunCheck(BackupRoles)))
    ensures i == 5 ==> KeyStep(app, Enter, w) == Stay(app.(browser := Load(w.fs, app.browser.currentDir), state := FileBrowser), None)
    ensures i == 6 ==> KeyStep(app, Enter, w) == Quit
    ensures i > 6 ==> KeyStep(app, Enter, w) == Stay(app, None)
  {
  }

  /** The menu's other keys: `q` ends the loop, Down/`j` and Up/`k` move the
      highlight, anything else is ignored. */
  lemma MenuKeys(app: App, key: KeyCode, w: World)
    requires app.state == Menu && key != Enter
    ensures key == Char('q') ==> KeyStep(app, key, w) == Quit
    ensures key in {Down, Char('j')} ==> KeyStep(app, key, w) == Stay(app.(menuSelected := MenuNext(app.menuSelected)), None)
    ensures key in {Up, Char('k')} ==> KeyStep(app, key, w) == Stay(app.(menuSelected := MenuPrevious(app.menuSelected)), None)
    ensures key !in {Char('q'), Down, Char('j'), Up, Char('k')} ==> KeyStep(app, key, w) == Stay(app, None)
  {
  }

  /** The browser's keys other than Enter: Esc/`q` back to the menu with the
      browser kept, Down/`j` and Up/`k` move its highlight, Backspace goes up,
      anything else is ignored. */
  lemma BrowserKeys(app: App, key: KeyCode, w: World)
    requires app.state == FileBrowser && key != Enter
    ensures key in {Esc, Char('q')} ==> KeyStep(app, key, w) == Stay(app.(state := Menu), None)
    ensures key in {Down, Char('j')} ==> KeyStep(app, key, w) == Stay(app.(browser := Next(app.browser)), None)
    ensures key in {Up, Char('k')} ==> KeyStep(app, key, w) == Stay(app.(browser := Previous(app.browser)), None)
    ensures key == Backspace ==> KeyStep(app, key, w) == Stay(app.(browser := GoUp(w.fs, app.browser)), None)
    ensures key !in {Esc, Char('q'), Down, Char('j'), Up, Char('k'), Backspace} ==> KeyStep(app, key, w) == Stay(app, None)
  {
  }

  lemma MenuPreviousUndoesNext(i: nat)
    requires i < |MenuItems|
    ensures MenuPrevious(MenuNext(Some(i))) == Some(i)
    ensures MenuNext(MenuPrevious(Some(i))) == Some(i)
  {
    Cursor.PreviousUndoesNext(i, |MenuItems|);
    Cursor.NextUndoesPrevious(i, |MenuItems|);
  }

  /** Only key presses are acted on. */
  function HandleEvent(app: App, ev: Option<KeyEvent>, w: World): (r: Step)
    ensures ev.None? || ev.value.kind != Press ==> r == Stay(app, None)
    ensures ev.Some? && ev.value.kind == Press ==> r == KeyStep(app, ev.value.code, w)
  {
    if ev.Some? && ev.value.kind == Press then KeyStep(app, ev.value.code, w) else Stay(app, None)
  }

  datatype Ticked = Ticked(app: App, call: Option<Call>)

  /** The deferred step after the key: resolve `Installing` and `Restoring`
      into `Result` with one blocking call. */
  function Tick(app: App, w: World): (r: Ticked)
    ensures !Busy(r.app.state)
    ensures !Busy(app.state) ==> r == Ticked(app, None)
    ensures Busy(app.state) ==> r.app == app.(state := r.app.state) && r.app.state.Result?
    ensures app.state.Installing? ==>
      r.call == Some(RunInstall(app.state.item)) && r.app.state == ResultOf(w.install(app.state.item))
    ensures app.state.Restoring? && app.selectedFile.Some? ==>
      r.call == Some(RunRestore(app.selectedFile.value))
      && r.app.state == ResultOf(w.restore(app.selectedFile.value))
    ensures app.state.Restoring? && app.selectedFile.None? ==>
      r.call.None? && r.app.state == Result(false, NoFileSelected)
  {
    match app.state
    case Installing(item) => Ticked(app.(state := ResultOf(w.install(item))), Some(RunInstall(item)))
    case Restoring =>
      (match app.selectedFile
       case Some(file) => Ticked(app.(state := ResultOf(w.restore(file))), Some(RunRestore(file)))
       case None => Ticked(app.(state := Result(false, NoFileSelected)), None))
    case _ => Ticked(app, None)
  }

  function CallList(c: Option<Call>): seq<Call>
  {
    match c
    case None => []
    case Some(x) => [x]
  }

  /** The outcome of loop iterations: the loop was left, or it goes on with
      the application and the collaborator calls made, in order. */
  datatype Iteration = Exited | Continue(app: App, calls: seq<Call>)

  /** One iteration of the loop of `run_app`. */
  function Iterate(app: App, ev: Option<KeyEvent>, w: World): (r: Iteration)
    // no busy state survives an iteration
    ensures r.Continue? ==> !Busy(r.app.state)
    // the collaborator calls never pile up
    ensures r.Continue? ==> |r.calls| <= 1
    ensures r.Exited? ==> app.state == Menu
    ensures Valid(app) && r.Continue? ==> Valid(r.app)
  {
    match HandleEvent(app, ev, w)
    case Quit => Exited
    case Stay(next, call) =>
      var ticked := Tick(next, w);
      Continue(ticked.app, CallList(call) + CallList(ticked.call))
  }

  /** The key and world of one iteration. */
  datatype Input = Input(event: Option<KeyEvent>, world: World)

  /** Iterations of the loop over a sequence of inputs. */
  function Run(app: App, inputs: seq<Input>): (r: Iteration)
    ensures r.Continue? && (|inputs| > 0 || !Busy(app.state)) ==> !Busy(r.app.state)
    ensures r.Continue? && Valid(app) ==> Valid(r.app)
    ensures r.Continue? ==> |r.calls| <= |inputs|
    decreases |inputs|
  {
    if |inputs| == 0 then
      Continue(app, [])
    else
      match Iterate(app, inputs[0].event, inputs[0].world)
      case Exited => Exited
      case Continue(next, calls) =>
        match Run(next, inputs[1..])
        case Exited => Exited
        case Continue(last, more) => Continue(last, calls + more)
  }

  /** From start-up, after any inputs, the state the loop draws is never
      `Installing` or `Restoring` and every highlight is on an item. */
  lemma ReachableStates(defaultDir: Path, inputs: seq<Input>)
    ensures var r := Run(Init(defaultDir), inputs);
      r.Continue? ==> !Busy(r.app.state) && Valid(r.app) && Dispatch(r.app.menuSelected).Some?
  {
  }

  /** The loop ends exactly on `q` or on confirming Exit, in the menu. */
  lemma ExitsExactly(app: App, ev: Option<KeyEvent>, w: World)
    ensures Iterate(app, ev, w).Exited? <==>
      && app.state == Menu && ev.Some? && ev.value.kind == Press
      && (ev.value.code == Char('q') || (ev.value.code == Enter && Dispatch(app.menuSelected) == Some(Exit)))
  {
  }

  /** Confirming an install item shows the install's report at the end of
      the same iteration, after exactly one install call. */
  lemma InstallWithinIteration(app: App, w: World, item: InstallItem)
    requires app.state == Menu && Dispatch(app.menuSelected) == Some(LongRunning(item))
    ensures HandleEvent(app, Some(KeyEvent(Enter, Press)), w) == Stay(app.(state := Installing(item)), None)
    ensures Iterate(app, Some(KeyEvent(Enter, Press)), w) ==
      Continue(app.(state := ResultOf(w.install(item))), [RunInstall(item)])
  {
  }

  /** Confirming a file in the browser records it and shows the restore's
      report at the end of the same iteration, after exactly one restore. */
  lemma RestoreWithinIteration(app: App, w: World)
    requires app.state == FileBrowser && OnFile(w.fs, app.browser)
    ensures var file := app.browser.entries[app.browser.selected.value];
      Iterate(app, Some(KeyEvent(Enter, Press)), w) ==
      Continue(app.(selectedFile := Some(file), state := ResultOf(w.restore(file))), [RunRestore(file)])
  {
  }

  /** Starting from a state the loop draws, the synthesized "No file
      selected." result never happens: every restore has its file. */
  lemma RestoreAlwaysHasFile(app: App, ev: Option<KeyEvent>, w: World)
    requires !Busy(app.state)
    ensures var s := HandleEvent(app, ev, w);
      s.Stay? && s.app.state.Restoring? ==>
        s.app.selectedFile.Some? && Tick(s.app, w).call == Some(RunRestore(s.app.selectedFile.value))
  {
  }

  /** Confirming the restore item lists the browser's current directory
      afresh (the one last browsed, not reset to the default). */
  lemma OpenBrowserRelists(app: App, w: World)
    requires app.state == Menu && Dispatch(app.menuSelected) == Some(OpenBrowser)
    ensures Iterate(app, Some(KeyEvent(Enter, Press)), w) ==
      Continue(app.(browser := Load(w.fs, app.browser.currentDir), state := FileBrowser), [])
  {
  }

  /** In the browser, confirming a directory or `".."` stays in the browser. */
  lemma BrowserStaysOnDirectories(app: App, w: World)
    requires app.state == FileBrowser && !OnFile(w.fs, app.browser)
    ensures Iterate(app, Some(KeyEvent(Enter, Press)), w) ==
      Continue(app.(browser := Select(w.fs, app.browser).browser), [])
  {
  }

  /** Acknowledging a result returns to the menu; other keys are ignored. */
  lemma ResultAcknowledged(app: App, ev: KeyEvent, w: World)
    requires app.state.Result? && ev.kind == Press
    ensures ev.code in {Enter, Esc, Char('q')} ==>
      Iterate(app, Some(ev), w) == Continue(app.(state := Menu), [])
    ensures ev.code !in {Enter, Esc, Char('q')} ==> Iterate(app, Some(ev), w) == Continue(app, [])
  {
  }
}
