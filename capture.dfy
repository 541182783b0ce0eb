/** The capture overlay's controller (src/App.jsx) as a state machine over
    snapshots of its state: the step functions here specify the methods of
    CaptureApp.Controller, and the lemmas state what the overlay promises. */
module Capture {
  import opened Sizing
  import opened JsText
  import opened Delegation
  import opened Host

  const Status: string := "inbox"
  const Kind: string := "task"
  const Source: string := "fleeets-companion"
  /** The owner identifier is a literal in the source. */
  const OwnerId: string := "6ee6af65-83f5-4944-8b55-47e73a2963b0"

  datatype Metadata = Metadata(source: string, delegated: bool)

  /** The record handed to the store's insert call. */
  datatype CaptureItem = CaptureItem(content: string, status: string, kind: string, userId: string, metadata: Metadata)

  /** The reply of the store: stored, or an error (which the overlay only logs). */
  datatype SinkOutcome = Stored | Failed(error: string)

  datatype Key = Enter | Escape | OtherKey
  /** A key press; `meta` is the Cmd modifier. */
  datatype KeyEvent = KeyEvent(key: Key, meta: bool)

  /** Everything the textarea can deliver to the controller. */
  datatype UiEvent =
    | TextChanged(value: string)
    | InputMeasured(scrollHeight: nat, resizeAccepted: bool)
    | KeyPressed(ev: KeyEvent)

  /** A snapshot of the controller together with the host window it drives
      and the items it has sent to the store so far. */
  datatype Ui = Ui(
    text: string,
    isSending: bool,
    textareaHeight: int,
    textareaScrolls: bool,
    window: WindowState,
    sinkCalls: seq<CaptureItem>)

  /** The state on mount: empty buffer, idle, textarea one line high. */
  function Initial(window: WindowState): Ui
  {
    Ui("", false, LineHeight, false, window, [])
  }

  /** The item built from the current text: the raw text, not trimmed. */
  function NewItem(lower: char -> char, text: string): CaptureItem
  {
    CaptureItem(text, Status, Kind, OwnerId, Metadata(Source, IsDelegate(lower, text)))
  }

  predicate IsSubmitChord(ev: KeyEvent)
  {
    ev.key == Enter && ev.meta
  }

  /** The key presses whose default action (a newline, for Enter) is cancelled. */
  predicate DefaultPrevented(ev: KeyEvent)
  {
    IsSubmitChord(ev) || ev.key == Escape
  }

  // ---- step functions, one per handler ----

  /** resizeWindow: the host either takes the new size or rejects it (logged). */
  function AfterResize(u: Ui, textareaHeight: int, accepted: bool): Ui
  {
    if accepted then u.(window := Resized(u.window, WindowWidth, WindowHeight(textareaHeight)))
    else u
  }

  /** handleInput, for the content height measured with the height set to "auto". */
  function AfterInput(u: Ui, scrollHeight: nat, resizeAccepted: bool): Ui
  {
    var h := TextareaHeight(scrollHeight);
    AfterResize(u.(textareaHeight := h, textareaScrolls := TextareaScrolls(scrollHeight)), h, resizeAccepted)
  }

  /** onChange: the textarea's value becomes the buffer. */
  function AfterChange(u: Ui, value: string): Ui
  {
    u.(text := value)
  }

  /** hideWindow: clear, reset the textarea, shrink the window, hide it. */
  function AfterHide(u: Ui): Ui
  {
    u.(text := "", textareaHeight := LineHeight, textareaScrolls := false,
       window := Hidden(Resized(u.window, WindowWidth, BaseHeight)))
  }

  /** handleSubmit up to the awaited insert: sending, and the item is sent. */
  function AfterBeginSubmit(lower: char -> char, u: Ui): Ui
  {
    u.(isSending := true, sinkCalls := u.sinkCalls + [NewItem(lower, u.text)])
  }

  /** handleSubmit after the insert replies: hide on success; always idle. */
  function AfterFinishSubmit(u: Ui, outcome: SinkOutcome): Ui
  {
    (if outcome.Stored? then AfterHide(u) else u).(isSending := false)
  }

  /** handleKeyDown. It has no guard on isSending of its own. */
  function AfterKeyDown(lower: char -> char, u: Ui, ev: KeyEvent): Ui
  {
    if IsSubmitChord(ev) then
      if Trim(u.text) == [] then u else AfterBeginSubmit(lower, u)
    else if ev.key == Escape then AfterHide(u)
    else u
  }

  /** An event reaching the textarea, which is disabled while sending. */
  function AfterEvent(lower: char -> char, u: Ui, e: UiEvent): Ui
  {
    if u.isSending then u
    else
      match e
      case TextChanged(value) => AfterChange(u, value)
      case InputMeasured(scrollHeight, accepted) => AfterInput(u, scrollHeight, accepted)
      case KeyPressed(ev) => AfterKeyDown(lower, u, ev)
  }

  // ---- properties ----

  /** The textarea height never exceeds its maximum, it scrolls only at that
      maximum, and the window is 700 wide and between its two bounds. */
  predicate SizesInRange(u: Ui)
  {
    && 0 <= u.textareaHeight <= MaxTextareaHeight
    && (u.textareaScrolls ==> u.textareaHeight == MaxTextareaHeight)
    && u.window.width == WindowWidth
    && BaseHeight <= u.window.height <= MaxWindowHeight
  }

  /** handleInput: the textarea takes min(scrollHeight, 300), scrolls exactly
      past 300, and an accepted resize gives a 700-wide window that is at its
      cap exactly when scrollHeight reaches 300. Nothing else changes. */
  lemma InputSizesTextareaAndWindow(u: Ui, scrollHeight: nat, accepted: bool)
    ensures var r := AfterInput(u, scrollHeight, accepted);
      && r.textareaHeight == Min(scrollHeight, MaxTextareaHeight)
      && (r.textareaScrolls <==> scrollHeight > MaxTextareaHeight)
      && (accepted ==> r.window.width == WindowWidth
                       && BaseHeight <= r.window.height <= MaxWindowHeight
                       && (r.window.height == MaxWindowHeight <==> scrollHeight >= MaxTextareaHeight))
      && (!accepted ==> r.window == u.window)
      && r.text == u.text && r.isSending == u.isSending && r.sinkCalls == u.sinkCalls
  {
    WindowCapExactlyAtMaxTextarea(scrollHeight);
  }

  /** Cmd+Enter on blank text neither sends nor changes anything. */
  lemma BlankSubmitIsNoOp(lower: char -> char, u: Ui, ev: KeyEvent)
    requires IsSubmitChord(ev) && IsBlank(u.text)
    ensures AfterKeyDown(lower, u, ev) == u
  {
    TrimEmptyIffBlank(u.text);
  }

  /** Cmd+Enter on text with a visible character sends exactly one item, built
      from the raw text, and marks the controller as sending. */
  lemma SubmitSendsRawText(lower: char -> char, u: Ui, ev: KeyEvent)
    requires IsSubmitChord(ev) && !IsBlank(u.text)
    ensures var r := AfterKeyDown(lower, u, ev);
      && r.isSending
      && |r.sinkCalls| == |u.sinkCalls| + 1 && r.sinkCalls[..|u.sinkCalls|] == u.sinkCalls
      && (var item := r.sinkCalls[|u.sinkCalls|];
          && item.content == u.text
          && item.status == "inbox" && item.kind == "task"
          && item.metadata.source == "fleeets-companion"
          && item.metadata.delegated == IsDelegate(lower, u.text))
      && r.text == u.text && r.window == u.window
      && r.textareaHeight == u.textareaHeight && r.textareaScrolls == u.textareaScrolls
  {
    TrimEmptyIffBlank(u.text);
    assert AfterKeyDown(lower, u, ev) == AfterBeginSubmit(lower, u);
  }

  /** Plain Enter (no Cmd) neither submits nor hides; its default action,
      the newline, is left to the textarea. */
  lemma PlainEnterOnlyTypes(lower: char -> char, u: Ui, ev: KeyEvent)
    requires ev.key == Enter && !ev.meta
    ensures AfterKeyDown(lower, u, ev) == u && !DefaultPrevented(ev)
  {
  }

  /** Escape always hides, with or without Cmd. */
  lemma EscapeAlwaysHides(lower: char -> char, u: Ui, ev: KeyEvent)
    requires ev.key == Escape
    ensures AfterKeyDown(lower, u, ev) == AfterHide(u) && DefaultPrevented(ev)
  {
  }

  /** hideWindow leaves an empty buffer, a one-line textarea that does not
      scroll and a hidden 700x140 window; it touches nothing else. */
  lemma HideResets(u: Ui)
    ensures var r := AfterHide(u);
      && r.text == "" && r.textareaHeight == LineHeight && !r.textareaScrolls
      && r.window.width == WindowWidth && r.window.height == BaseHeight
      && !r.window.visible && !r.window.focused
      && r.isSending == u.isSending && r.sinkCalls == u.sinkCalls
  {
  }

  /** Hiding twice is hiding once. */
  lemma HideIsIdempotent(u: Ui)
    ensures AfterHide(AfterHide(u)) == AfterHide(u)
  {
  }

  /** A stored item ends the capture: empty buffer, reset textarea, hidden
      700x140 window, idle. */
  lemma StoredSubmitResets(u: Ui)
    ensures AfterFinishSubmit(u, Stored) == AfterHide(u).(isSending := false)
    ensures var r := AfterFinishSubmit(u, Stored);
      && r.text == "" && r.textareaHeight == LineHeight && !r.textareaScrolls
      && r.window.width == WindowWidth && r.window.height == BaseHeight
      && !r.window.visible && !r.isSending
  {
  }

  /** A failed insert keeps the text and the window as they were; the
      controller is idle again. */
  lemma FailedSubmitKeepsText(u: Ui, error: string)
    ensures AfterFinishSubmit(u, Failed(error)) == u.(isSending := false)
  {
  }

  /** A whole submission from idle, through the disabled gate: exactly one
      item with the raw text goes to the store, the controller ends idle, and
      the buffer ends empty exactly when the item was stored. */
  lemma SubmitRoundTrip(lower: char -> char, u: Ui, ev: KeyEvent, outcome: SinkOutcome)
    requires !u.isSending && IsSubmitChord(ev) && !IsBlank(u.text)
    ensures var r := AfterFinishSubmit(AfterEvent(lower, u, KeyPressed(ev)), outcome);
      && r.sinkCalls == u.sinkCalls + [NewItem(lower, u.text)]
      && !r.isSending
      && (r.text == "" <==> outcome.Stored?)
      && (outcome.Stored? ==> !r.window.visible)
      && (outcome.Failed? ==> r.text == u.text && r.window == u.window)
  {
    var s := AfterBeginSubmit(lower, u);
    assert AfterEvent(lower, u, KeyPressed(ev)) == s by {
      TrimEmptyIffBlank(u.text);
    }
    assert u.text != [];
    if outcome.Stored? {
      StoredSubmitResets(s);
    } else {
      FailedSubmitKeepsText(s, outcome.error);
    }
  }

  /** While sending, the disabled textarea delivers nothing: repeated
      Cmd+Enter, Escape or typing have no effect. */
  lemma DisabledWhileSending(lower: char -> char, u: Ui, e: UiEvent)
    requires u.isSending
    ensures AfterEvent(lower, u, e) == u
  {
  }

  /** Only the disabled textarea stops a second submission: the key handler
      itself, called while sending, sends the same text again. */
  lemma KeyHandlerAloneResubmits(lower: char -> char, u: Ui, ev: KeyEvent)
    requires u.isSending && IsSubmitChord(ev) && !IsBlank(u.text)
    ensures AfterKeyDown(lower, u, ev).sinkCalls == u.sinkCalls + [NewItem(lower, u.text)]
  {
    TrimEmptyIffBlank(u.text);
  }

  /** Every event and every reply of the store keeps the sizes in range. */
  lemma SizesStayInRange(lower: char -> char, u: Ui, e: UiEvent, outcome: SinkOutcome)
    requires SizesInRange(u)
    ensures SizesInRange(AfterEvent(lower, u, e))
    ensures SizesInRange(AfterFinishSubmit(u, outcome))
  {
    if e.InputMeasured? && !u.isSending {
      InputSizesTextareaAndWindow(u, e.scrollHeight, e.resizeAccepted);
    }
  }

  /** A whole session: type a non-blank line, press plain Enter (the
      textarea then reports the line with a newline), press Cmd+Enter, and
      the store accepts. Exactly one item, with the newline, is stored, and
      the overlay ends empty, hidden and idle. */
  lemma TypeEnterSubmitSession(lower: char -> char, w: WindowState, typed: string,
                               u0: Ui, u1: Ui, u2: Ui, u3: Ui, u4: Ui)
    requires !IsBlank(typed)
    requires u0 == AfterEvent(lower, Initial(w), TextChanged(typed))
    requires u1 == AfterEvent(lower, u0, KeyPressed(KeyEvent(Enter, false)))
    requires u2 == AfterEvent(lower, u1, TextChanged(typed + "\n"))
    requires u3 == AfterEvent(lower, u2, KeyPressed(KeyEvent(Enter, true)))
    requires u4 == AfterFinishSubmit(u3, Stored)
    ensures u1 == u0 && u3.isSending
    ensures u4.sinkCalls == [NewItem(lower, typed + "\n")]
    ensures u4.text == "" && !u4.window.visible && !u4.isSending
  {
    assert u0 == Initial(w).(text := typed);
    assert u1 == u0;
    assert u2 == Initial(w).(text := typed + "\n");
    NotBlankExtended(typed, "\n");
    SubmitSendsRawText(lower, u2, KeyEvent(Enter, true));
    SubmitRoundTrip(lower, u2, KeyEvent(Enter, true), Stored);
  }

  /** The example line "Call dentist" with its newline is not delegated, so
      the item the session above stores for it has delegated = false. */
  lemma CallDentistIsNotDelegated(lower: char -> char, s: string)
    requires s == "Call dentist\n"
    requires LowerCase(lower, s) == "call dentist\n"
    ensures !IsBlank(s) && !IsDelegate(lower, s)
    ensures NewItem(lower, s).metadata.delegated == false
  {
    assert !IsWhiteSpace(s[0]);
    NotIncludedWithoutFirstChar(LowerCase(lower, s), Word);
    NotIncludedWithoutFirstChar(s, TagRu);
    NotIncludedWithoutFirstChar(s, TagEn);
  }
}
