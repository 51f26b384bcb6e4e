/** The main menu and the settings screen (terminal.py, `handle_menu_input` and
    `handle_settings_input`): the four menu entries wrap around, KEY3 opens the screen of
    the selected entry, and the settings list, the theme list and the brightness stop at
    their ends. */
module Menus {
  import TerminalState

  /** Entries of the main menu: Terminal, WiFi, Settings, About. */
  const MenuEntries: nat := 4

  /** UP in the menu: `(menu_index - 1) % 4`. Python's `%` by a positive number is never
      negative, like Dafny's. */
  function MenuUp(i: int): (r: nat)
    ensures r < MenuEntries
  {
    (i - 1) % MenuEntries
  }

  /** DOWN in the menu: `(menu_index + 1) % 4`. */
  function MenuDown(i: int): (r: nat)
    ensures r < MenuEntries
  {
    (i + 1) % MenuEntries
  }

  /** UP and DOWN undo each other on every entry, and they wrap between the first and
      the last entry. */
  lemma MenuRoundTrip(i: int)
    requires 0 <= i < MenuEntries
    ensures MenuUp(MenuDown(i)) == i && MenuDown(MenuUp(i)) == i
    ensures i == 0 ==> MenuUp(i) == MenuEntries - 1
    ensures i == MenuEntries - 1 ==> MenuDown(i) == 0
  {
  }

  /** KEY3 in the menu: the screen of the selected entry; any other index leaves the
      screen as it was. */
  function MenuTarget(i: int, current: TerminalState.Screen): TerminalState.Screen {
    if i == 0 then TerminalState.TerminalScreen
    else if i == 1 then TerminalState.WifiScreen
    else if i == 2 then TerminalState.SettingsScreen
    else if i == 3 then TerminalState.AboutScreen
    else current
  }

  /** Every entry leaves the menu, and different entries open different screens. */
  lemma MenuTargetsDistinct(i: int, j: int, current: TerminalState.Screen)
    requires 0 <= i < MenuEntries && 0 <= j < MenuEntries
    ensures MenuTarget(i, current) != TerminalState.Menu
    ensures MenuTarget(i, current) == MenuTarget(j, current) <==> i == j
  {
  }

  /** Entries of the settings list: Theme, Brightness. */
  const SettingsEntries: nat := 2

  /** UP in the settings list: `max(0, settings_menu_index - 1)`. */
  function SettingsUp(i: int): int {
    if i - 1 > 0 then i - 1 else 0
  }

  /** DOWN in the settings list: `min(1, settings_menu_index + 1)`. */
  function SettingsDown(i: int): int {
    if i + 1 < SettingsEntries - 1 then i + 1 else SettingsEntries - 1
  }

  /** The settings index stays on an entry and moves by one unless it is at the end. */
  lemma SettingsStayInRange(i: int)
    requires 0 <= i < SettingsEntries
    ensures 0 <= SettingsUp(i) < SettingsEntries && 0 <= SettingsDown(i) < SettingsEntries
    ensures SettingsUp(i) == if i == 0 then 0 else i - 1
    ensures SettingsDown(i) == if i == SettingsEntries - 1 then i else i + 1
  {
  }

  /** The themes offered, in list order. */
  const ThemeOptions: seq<string> := ["dark", "light", "orange"]

  /** UP in the theme list: `max(0, theme_select_index - 1)`. */
  function ThemeUp(i: int): int {
    if i - 1 > 0 then i - 1 else 0
  }

  /** DOWN in the theme list: `min(len(theme_options) - 1, theme_select_index + 1)`. */
  function ThemeDown(i: int): int {
    if i + 1 < |ThemeOptions| - 1 then i + 1 else |ThemeOptions| - 1
  }

  /** `theme_options.index(theme)`: the first position of the theme in the list. */
  function ThemeIndex(theme: string): (i: nat)
    requires theme in ThemeOptions
    ensures i < |ThemeOptions| && ThemeOptions[i] == theme
  {
    if ThemeOptions[0] == theme then 0 else if ThemeOptions[1] == theme then 1 else 2
  }

  /** The theme index stays on a theme whatever is pressed, so KEY3 always picks an
      offered theme; entering the list and pressing KEY3 at once keeps the current theme. */
  lemma ThemeSelection(i: int, theme: string)
    requires 0 <= i < |ThemeOptions| && theme in ThemeOptions
    ensures 0 <= ThemeUp(i) < |ThemeOptions| && 0 <= ThemeDown(i) < |ThemeOptions|
    ensures ThemeOptions[ThemeIndex(theme)] == theme
  {
  }

  const MinBrightness: int := 10
  const MaxBrightness: int := 100
  const BrightnessStep: int := 5

  /** LEFT while adjusting: `max(10, brightness - 5)`. */
  function BrightnessDown(b: int): (r: int)
    ensures r >= MinBrightness
  {
    if b - BrightnessStep > MinBrightness then b - BrightnessStep else MinBrightness
  }

  /** RIGHT while adjusting: `min(100, brightness + 5)`. */
  function BrightnessUp(b: int): (r: int)
    ensures r <= MaxBrightness
  {
    if b + BrightnessStep < MaxBrightness then b + BrightnessStep else MaxBrightness
  }

  /** From any brightness in range (100 at start-up), both keys stay in range and move
      by at most one step. */
  lemma BrightnessStaysInRange(b: int)
    requires MinBrightness <= b <= MaxBrightness
    ensures MinBrightness <= BrightnessDown(b) <= b <= BrightnessUp(b) <= MaxBrightness
    ensures b - BrightnessDown(b) <= BrightnessStep && BrightnessUp(b) - b <= BrightnessStep
  {
  }

  /** One step up and one step down cancel unless a clamp was hit. */
  lemma BrightnessRoundTrip(b: int)
    ensures MinBrightness <= b <= MaxBrightness - BrightnessStep ==> BrightnessDown(BrightnessUp(b)) == b
    ensures MinBrightness + BrightnessStep <= b <= MaxBrightness ==> BrightnessUp(BrightnessDown(b)) == b
  {
  }
}
