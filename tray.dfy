/** The native shell's event handlers (src-tauri/src/main.rs): the tray
    icon and its menu, the window's focus-lost handler and the Alt+Space
    shortcut, all acting on the one host window. */
module Tray {
  import opened Host

  /** The tray events the shell receives (Tauri's SystemTrayEvent). */
  datatype TrayEvent = MenuItemClick(id: string) | LeftClick | RightClick | DoubleClick

  /** The window events the shell receives (Tauri's WindowEvent). */
  datatype WindowEvent =
    | FocusChanged(focused: bool)
    | WindowResized | WindowMoved | CloseRequested | Destroyed
    | ScaleFactorChanged | FileDrop | ThemeChanged

  const QuitId: string := "quit"
  const ShowId: string := "show"

  /** The shell's state: the window, and whether the process still runs. */
  datatype ShellState = ShellState(window: WindowState, running: bool)

  /** The toggle shared by Alt+Space and the tray's left click: hide a
      visible window, otherwise show it and give it the focus. */
  function Toggle(w: WindowState): WindowState
  {
    if w.visible then Hidden(w) else Focused(Shown(w))
  }

  /** The tray menu's "show" item. */
  function ShowFocused(w: WindowState): WindowState
  {
    Focused(Shown(w))
  }

  function AfterShortcut(s: ShellState): ShellState
  {
    s.(window := Toggle(s.window))
  }

  function AfterTrayEvent(s: ShellState, e: TrayEvent): ShellState
  {
    match e
    case MenuItemClick(id) =>
      if id == QuitId then s.(running := false)
      else if id == ShowId then s.(window := ShowFocused(s.window))
      else s
    case LeftClick => s.(window := Toggle(s.window))
    case _ => s
  }

  function AfterWindowEvent(s: ShellState, e: WindowEvent): ShellState
  {
    if e == FocusChanged(false) then s.(window := Hidden(s.window)) else s
  }

  // ---- properties ----

  /** Alt+Space hides a visible window and shows and focuses a hidden one;
      the size is never touched and the process keeps running. */
  lemma ShortcutTogglesVisibility(s: ShellState)
    ensures var r := AfterShortcut(s);
      && (s.window.visible ==> r.window == Hidden(s.window))
      && (!s.window.visible ==> r.window.visible && r.window.focused)
      && r.window.visible == !s.window.visible
      && r.window.width == s.window.width && r.window.height == s.window.height
      && r.running == s.running
  {
  }

  /** Toggling twice restores the visibility; it restores the whole window
      exactly when the window was focused just when it was visible. */
  lemma ToggleTwice(w: WindowState)
    ensures Toggle(Toggle(w)).visible == w.visible
    ensures (Toggle(Toggle(w)) == w) <==> (w.focused == w.visible)
  {
  }

  /** A left click on the tray icon is the shortcut. */
  lemma LeftClickIsShortcut(s: ShellState)
    ensures AfterTrayEvent(s, LeftClick) == AfterShortcut(s)
  {
  }

  /** "show" leaves the window shown and focused whatever it was, and
      choosing it again changes nothing. */
  lemma ShowIsIdempotent(s: ShellState)
    ensures var r := AfterTrayEvent(s, MenuItemClick(ShowId));
      && r.window.visible && r.window.focused && r.running == s.running
      && AfterTrayEvent(r, MenuItemClick(ShowId)) == r
  {
  }

  /** "quit" ends the process; other menu ids and the other tray events
      change nothing. */
  lemma QuitAndIgnoredTrayEvents(s: ShellState, e: TrayEvent)
    ensures e == MenuItemClick(QuitId) ==> AfterTrayEvent(s, e) == s.(running := false)
    ensures e.MenuItemClick? && e.id != QuitId && e.id != ShowId ==> AfterTrayEvent(s, e) == s
    ensures e.RightClick? || e.DoubleClick? ==> AfterTrayEvent(s, e) == s
    ensures AfterTrayEvent(s, e).running <==> s.running && e != MenuItemClick(QuitId)
  {
  }

  /** Losing the focus hides the window; every other window event, gaining
      the focus included, changes nothing. */
  lemma FocusLostHides(s: ShellState, e: WindowEvent)
    ensures e == FocusChanged(false) ==> AfterWindowEvent(s, e) == s.(window := Hidden(s.window))
    ensures e != FocusChanged(false) ==> AfterWindowEvent(s, e) == s
  {
  }

  /** No handler leaves a focused window off screen. The shell's source
      promises nothing of the kind: this checks that the host-window
      abstraction stays consistent under the handlers (hiding clears the
      focus, and every show is followed by a focus). */
  lemma HandlersKeepFocusOnScreen(s: ShellState, t: TrayEvent, e: WindowEvent)
    requires FocusImpliesVisible(s.window)
    ensures FocusImpliesVisible(AfterShortcut(s).window)
    ensures FocusImpliesVisible(AfterTrayEvent(s, t).window)
    ensures FocusImpliesVisible(AfterWindowEvent(s, e).window)
  {
  }

  /** The shell as it runs: its handlers read the window's visibility and
      call show, hide and set_focus on it. */
  class Shell {
    const window: HostWindow
    /** False once `std::process::exit(0)` has run; no handler runs after it. */
    var running: bool

    function State(): ShellState
      reads this, window
    {
      ShellState(window.State(), running)
    }

    constructor (window: HostWindow)
      ensures this.window == window && State() == ShellState(window.State(), true)
    {
      this.window := window;
      running := true;
    }

    /** The body shared by the Alt+Space closure and the tray's left click. */
    method ToggleWindow()
      modifies window
      ensures window.State() == Toggle(old(window.State()))
    {
      if window.visible {
        window.Hide();
      } else {
        window.Show();
        window.SetFocus();
      }
    }

    /** The Alt+Space handler. */
    method OnShortcut()
      requires running
      modifies window
      ensures State() == AfterShortcut(old(State()))
    {
      ToggleWindow();
    }

    /** The tray event handler. */
    method OnTrayEvent(e: TrayEvent)
      requires running
      modifies this, window
      ensures State() == AfterTrayEvent(old(State()), e)
    {
      match e
      case MenuItemClick(id) =>
        if id == QuitId {
          running := false;
        } else if id == ShowId {
          window.Show();
          window.SetFocus();
        }
      case LeftClick => ToggleWindow();
      case _ =>
    }

    /** The window event handler installed at setup. */
    method OnWindowEvent(e: WindowEvent)
      requires running
      modifies window
      ensures State() == AfterWindowEvent(old(State()), e)
    {
      if e == FocusChanged(false) {
        window.Hide();
      }
    }
  }
}
