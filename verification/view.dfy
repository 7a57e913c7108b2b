/**
 The parts of the screen (`ui` in src/main.rs) that depend on the state:
 the footer hint and the framing of a result. Layout, colours and borders
 are not modelled.
 */
module View {
  import opened Machine

  /** The footer hints. The arrows of the two navigation hints are stored in
      src/main.rs as the characters `â†‘` and `â†“` (the UTF-8 bytes of `↑`
      and `↓` read as Windows-1252), and that is what the footer shows. */
  const MenuHint: string := "\U{E2}\U{2020}\U{2018}/\U{E2}\U{2020}\U{201C}: Navigate | Enter: Select | q: Quit"
  const BrowserHint: string := "\U{E2}\U{2020}\U{2018}/\U{E2}\U{2020}\U{201C}: Navigate | Enter: Select/Open | Backspace: Parent | Esc: Cancel"
  const BusyHint: string := "Please wait..."
  const ResultHint: string := "Press Enter or Esc to return to menu"

  /** The four kinds of screen the footer tells apart. */
  datatype Screen = MenuScreen | BrowserScreen | BusyScreen | ResultScreen

  function ScreenOf(s: AppState): (k: Screen)
    ensures k == BusyScreen <==> Busy(s)
  {
    match s
    case Menu => MenuScreen
    case FileBrowser => BrowserScreen
    case Installing(_) => BusyScreen
    case Restoring => BusyScreen
    case Result(_, _) => ResultScreen
  }

  /** The footer hint, which depends on the state alone. */
  function Footer(s: AppState): (hint: string)
    ensures hint == BusyHint <==> Busy(s)
  {
    match s
    case Menu => MenuHint
    case FileBrowser => BrowserHint
    case Installing(_) => BusyHint
    case Restoring => BusyHint
    case Result(_, _) => ResultHint
  }

  /** Two states show the same footer exactly when they are the same kind of
      screen. */
  lemma FooterIdentifiesScreen(s: AppState, t: AppState)
    ensures Footer(s) == Footer(t) <==> ScreenOf(s) == ScreenOf(t)
  {
    assert |MenuHint| == 43 && |BrowserHint| == 72 && |BusyHint| == 14 && |ResultHint| == 36;
  }

  /** The title and body of a result panel. */
  datatype Panel = Panel(title: string, body: string)

  /** The result panel: titled " Success " or " Error " by the flag, with
      the collaborator's message verbatim as body. */
  function ResultPanel(success: bool, message: string): (p: Panel)
    ensures p.title == " Success " <==> success
    ensures !success ==> p.title == " Error "
    ensures p.body == message
  {
    Panel(if success then " Success " else " Error ", message)
  }
}
