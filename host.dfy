/** The host window ("main") that both the overlay's script (src/App.jsx)
    and the native shell (src-tauri/src/main.rs) drive through Tauri. */
module Host {

  /** What the host window currently is: its requested logical size, whether
      it is shown, and whether the program has given it keyboard focus.
      `focused` records the focus the program requested (set by `set_focus`,
      cleared by `hide`), not the operating system's focus: a click that
      focuses the window without either call leaves it as it was. */
  datatype WindowState = WindowState(width: int, height: int, visible: bool, focused: bool)

  /** A window that has the focus is on screen. */
  predicate FocusImpliesVisible(w: WindowState)
  {
    w.focused ==> w.visible
  }

  /** `setSize` changes the requested size and nothing else. */
  function Resized(w: WindowState, width: int, height: int): WindowState
  {
    w.(width := width, height := height)
  }

  /** Hiding takes the window off screen; a hidden window has no focus. */
  function Hidden(w: WindowState): (r: WindowState)
    ensures !r.visible && !r.focused && FocusImpliesVisible(r)
    ensures r.width == w.width && r.height == w.height
  {
    w.(visible := false, focused := false)
  }

  /** Showing puts the window on screen and leaves its focus as it was. */
  function Shown(w: WindowState): (r: WindowState)
    ensures r.visible && r.focused == w.focused && FocusImpliesVisible(r)
    ensures r.width == w.width && r.height == w.height
  {
    w.(visible := true)
  }

  /** `set_focus` gives the window the program's focus and nothing else. */
  function Focused(w: WindowState): WindowState
  {
    w.(focused := true)
  }

  /** One shared window; every write goes through these four calls. */
  class HostWindow {
    var width: int
    var height: int
    var visible: bool
    var focused: bool

    function State(): WindowState
      reads this
    {
      WindowState(width, height, visible, focused)
    }

    constructor (initial: WindowState)
      ensures State() == initial
    {
      width, height := initial.width, initial.height;
      visible, focused := initial.visible, initial.focused;
    }

    /** `setSize(new LogicalSize(width, height))` */
    method SetSize(w: int, h: int)
      modifies this
      ensures State() == Resized(old(State()), w, h)
    {
      width, height := w, h;
    }

    /** `hide()` */
    method Hide()
      modifies this
      ensures State() == Hidden(old(State()))
    {
      visible, focused := false, false;
    }

    /** `show()` */
    method Show()
      modifies this
      ensures State() == Shown(old(State()))
    {
      visible := true;
    }

    /** `set_focus()` */
    method SetFocus()
      modifies this
      ensures State() == Focused(old(State()))
    {
      focused := true;
    }
  }
}
