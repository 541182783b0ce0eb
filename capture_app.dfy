/** The overlay's controller as the component holds it (src/App.jsx): the
    React state and the textarea's inline style are fields that the handlers
    update, and every host-window call goes to the shared HostWindow. Each
    method is specified by its step function in module Capture. */
module CaptureApp {
  import opened Sizing
  import opened JsText
  import opened Host
  import opened Capture

  class Controller {
    /** `text` state: the textarea's value. */
    var text: string
    /** `isSending` state; it also disables the textarea. */
    var isSending: bool
    /** The textarea's inline `style.height`, in pixels. */
    var textareaHeight: int
    /** Whether the textarea's inline `style.overflowY` is "auto" rather than "hidden". */
    var textareaScrolls: bool
    /** The items passed to the store's insert call, in order. */
    var sinkCalls: seq<CaptureItem>
    /** The host window (`appWindow`). */
    const window: HostWindow
    /** The character-wise lowercase mapping behind `toLowerCase`. */
    const lower: char -> char

    function Snapshot(): Ui
      reads this, window
    {
      Ui(text, isSending, textareaHeight, textareaScrolls, window.State(), sinkCalls)
    }

    constructor (window: HostWindow, lower: char -> char)
      ensures this.window == window && this.lower == lower
      ensures Snapshot() == Initial(window.State())
    {
      this.window, this.lower := window, lower;
      text, isSending := "", false;
      textareaHeight, textareaScrolls := LineHeight, false;
      sinkCalls := [];
    }

    /** resizeWindow. `accepted` is whether the host's setSize succeeds; a
        failure is logged and otherwise ignored. */
    method ResizeWindow(textareaHeight: int, accepted: bool)
      modifies window
      ensures Snapshot() == AfterResize(old(Snapshot()), textareaHeight, accepted)
    {
      var extraHeight := Max(0, textareaHeight - LineHeight);
      var newHeight := Min(BaseHeight + extraHeight, BaseHeight + MaxTextareaHeight - LineHeight);
      if accepted {
        window.SetSize(WindowWidth, Max(BaseHeight, newHeight));
      }
    }

    /** hideWindow. */
    method HideWindow()
      modifies this, window
      ensures Snapshot() == AfterHide(old(Snapshot()))
    {
      text := "";
      textareaHeight, textareaScrolls := LineHeight, false;
      window.SetSize(WindowWidth, BaseHeight);
      window.Hide();
    }

    /** onChange. */
    method OnChange(value: string)
      modifies this
      ensures Snapshot() == AfterChange(old(Snapshot()), value)
    {
      text := value;
    }

    /** handleInput, given the content height the textarea reports once its
        height is set to "auto". The window resize is issued last. */
    method HandleInput(scrollHeight: nat, resizeAccepted: bool)
      modifies this, window
      ensures Snapshot() == AfterInput(old(Snapshot()), scrollHeight, resizeAccepted)
    {
      var newHeight := Min(scrollHeight, MaxTextareaHeight);
      textareaHeight := newHeight;
      textareaScrolls := scrollHeight > MaxTextareaHeight;
      ResizeWindow(newHeight, resizeAccepted);
    }

    /** handleSubmit up to the awaited insert: mark sending, build the item
        from the raw text and hand it to the store. */
    method BeginSubmit() returns (item: CaptureItem)
      modifies this
      ensures item == NewItem(lower, old(text))
      ensures Snapshot() == AfterBeginSubmit(lower, old(Snapshot()))
    {
      isSending := true;
      var isDelegate := Delegation.IsDelegate(lower, text);
      item := CaptureItem(text, Status, Kind, OwnerId, Metadata(Source, isDelegate));
      sinkCalls := sinkCalls + [item];
    }

    /** handleSubmit once the insert replies: hide on success, log a failure,
        and in every case (`finally`) stop sending. */
    method FinishSubmit(outcome: SinkOutcome)
      modifies this, window
      ensures Snapshot() == AfterFinishSubmit(old(Snapshot()), outcome)
    {
      if outcome.Stored? {
        HideWindow();
      }
      isSending := false;
    }

    /** handleKeyDown; `prevented` is whether it called preventDefault. A
        Cmd+Enter only starts the submission: its reply arrives through
        FinishSubmit. */
    method HandleKeyDown(ev: KeyEvent) returns (prevented: bool)
      modifies this, window
      ensures prevented == DefaultPrevented(ev)
      ensures Snapshot() == AfterKeyDown(lower, old(Snapshot()), ev)
    {
      prevented := false;
      if ev.key == Enter && ev.meta {
        prevented := true;
        if Trim(text) == [] {
          return;
        }
        var _ := BeginSubmit();
      }
      if ev.key == Escape {
        prevented := true;
        HideWindow();
      }
    }

    /** The textarea: while it is disabled (sending) it delivers nothing. */
    method Dispatch(e: UiEvent) returns (prevented: bool)
      modifies this, window
      ensures prevented == (!old(isSending) && e.KeyPressed? && DefaultPrevented(e.ev))
      ensures Snapshot() == AfterEvent(lower, old(Snapshot()), e)
    {
      prevented := false;
      if isSending {
        return;
      }
      match e
      case TextChanged(value) => OnChange(value);
      case InputMeasured(scrollHeight, accepted) => HandleInput(scrollHeight, accepted);
      case KeyPressed(ev) => prevented := HandleKeyDown(ev);
    }
  }

  /** A client of the controller: one capture typed, submitted and stored.
      It returns what reached the store. */
  method CaptureOnce(window: HostWindow, lower: char -> char, value: string) returns (sent: seq<CaptureItem>)
    requires !IsBlank(value)
    modifies window
    ensures sent == [NewItem(lower, value)]
    ensures window.State() == Hidden(Resized(old(window.State()), WindowWidth, BaseHeight))
  {
    var c := new Controller(window, lower);
    var _ := c.Dispatch(TextChanged(value));
    TrimEmptyIffBlank(value);
    var _ := c.Dispatch(KeyPressed(KeyEvent(Enter, true)));
    c.FinishSubmit(Stored);
    assert c.text == "" && !c.isSending;
    sent := c.sinkCalls;
  }
}
