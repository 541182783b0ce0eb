# fleeets-companion: the capture overlay and its window shell

fleeets-companion is a quick-capture overlay. The user summons a floating window with Alt+Space, types a note, and either stores it with Cmd+Enter or dismisses it with Escape. Two small state machines hold all of its logic, and this project models both and proves their contracts.

- **The overlay controller** (`src/App.jsx`) owns the text buffer, the `isSending` flag, the textarea's inline height and overflow mode, and the host window's requested size and visibility. Text input, key presses and the reply of one insert call to the store drive it.
   - `Sizing` holds the pure pixel arithmetic of `resizeWindow` and `handleInput`.
   - `JsText` holds the JavaScript string operations the controller uses: `trim`, `includes` and a character-wise `toLowerCase`.
   - `Delegation` holds the "delegated" keyword heuristic.
   - `Capture` gives the controller's state as a value (`Ui`) and one step function per handler, and proves what the overlay promises about them.
   - `CaptureApp.Controller` is the component itself: a class whose fields are the React state and the textarea style, whose methods are the handlers, and whose every method is proved equal to its step function.
- **The shell** (`src-tauri/src/main.rs`) toggles the window on Alt+Space and on a left click of the tray icon. Its tray menu has "show" and "quit", and it hides the window when the window loses focus. `Tray` gives step functions, lemmas and the class `Tray.Shell`.
- **The host window** (`Host.HostWindow`) is the one Tauri window that both sides write to. It records the requested size, visibility and focus.

Modelling choices:
- Submission has two phases, because the insert is awaited. `BeginSubmit` sets `isSending`, builds the item and appends it to `sinkCalls`, the record of insert calls. `FinishSubmit(outcome)` takes the store's reply as an input. It hides on success, and it always clears `isSending`, as the `finally` block does.
- The textarea is `disabled` while sending, and disabled textareas deliver no events. `Controller.Dispatch` is that gate. `HandleKeyDown` itself has no guard: `Capture.KeyHandlerAloneResubmits` shows that, called while sending, it sends the text again.
- `toLowerCase` is the parameter `lower: char -> char`, applied to each character.
- Hiding a window also takes its focus away. Showing a window leaves its focus as it was. `set_focus` gives it focus.
- The item's `content` is the raw, untrimmed text (src/App.jsx:88). `metadata.source` is "fleeets-companion" (src/App.jsx:93). `type` is always "task" (src/App.jsx:90).
- `handleKeyDown` has no `isSending` guard. Escape and a second Cmd+Enter are blocked while sending only because the textarea is `disabled` (src/App.jsx:128).

## Model

| member | source | states |
|---|---|---|
| Sizing.WindowHeight | src/App.jsx:31-40 | the requested height is always between 140 and 404; it is exactly 140 for a textarea height of at most 36, exactly h + 104 for 36 ≤ h ≤ 300, and exactly 404 from 300 on |
| Sizing.WindowHeightMonotonic | src/App.jsx:32-36 | a taller textarea never gives a shorter window |
| Sizing.TextareaHeight | src/App.jsx:71 | the textarea height is at most 300 and at most scrollHeight, and it is one of the two |
| Sizing.NoScrollShowsEverything | src/App.jsx:71-74 | the textarea does not scroll exactly when its height equals the content height |
| Sizing.WindowCapExactlyAtMaxTextarea | src/App.jsx:68-76 | the window reaches 404 if and only if scrollHeight ≥ 300, and in particular whenever the textarea scrolls |
| JsText.TrimStart | src/App.jsx:59 | the result is the suffix left after a run of white space, and it does not start with white space |
| JsText.TrimEnd | src/App.jsx:59 | the result is the prefix left before a run of white space, and it does not end with white space |
| JsText.NotBlankExtended | src/App.jsx:59 | appending to text that has a visible character keeps it non-blank |
| JsText.TrimEmptyIffBlank | src/App.jsx:59 | `text.trim()` is empty if and only if every character is ECMAScript white space or a line terminator |
| JsText.Includes | src/App.jsx:82-84 | `includes` is true if and only if the pattern occurs at some index |
| JsText.IncludesInfix | src/App.jsx:82-84 | a string includes any infix written into it |
| JsText.NotIncludedWithoutFirstChar | src/App.jsx:82-84 | a pattern whose first character is absent from the string is not included |
| JsText.NotIncludedWhenLonger | src/App.jsx:82-84 | a pattern longer than the string is not included |
| JsText.LowerCase | src/App.jsx:82 | lowercasing keeps the length and maps each character on its own |
| JsText.LowerCaseConcat | src/App.jsx:82 | lowercasing a concatenation is concatenating the lowercased parts |
| Delegation.TagEnDelegates | src/App.jsx:84 | any text containing "#dd" is delegated, whatever the case mapping |
| Delegation.TagRuDelegates | src/App.jsx:83 | any text containing "#дд" is delegated, whatever the case mapping |
| Delegation.WordDelegatesInAnyCase | src/App.jsx:82 | any text containing a word that lowercases to "дживс" is delegated, so the word matches in any case |
| Delegation.UpperCaseTagsDoNotDelegate | src/App.jsx:81-84 | "#DD" and "#ДД" on their own are not delegated, because the tags match case-sensitively |
| Delegation.GreetingWithWordDelegates | src/App.jsx:81-84 | "привет дживс" is delegated |
| Delegation.PlainTextDoesNotDelegate | src/App.jsx:81-84 | "buy milk" is not delegated |
| Host.Hidden | src/App.jsx:53 | a hidden window is off screen, has no focus and keeps its size |
| Host.Shown | src-tauri/src/main.rs:48 | a shown window is on screen, keeps its focus and keeps its size |
| Host.HostWindow.SetSize | src/App.jsx:52 | setSize changes the size and nothing else |
| Host.HostWindow.Hide | src-tauri/src/main.rs:46 | hide takes the window off screen and away from focus, and nothing else |
| Host.HostWindow.Show | src-tauri/src/main.rs:48 | show puts the window on screen, and nothing else |
| Host.HostWindow.SetFocus | src-tauri/src/main.rs:49 | set_focus gives the window focus, and nothing else |
| Capture.InputSizesTextareaAndWindow | src/App.jsx:68-76 | after handleInput the textarea height is min(scrollHeight, 300) and it scrolls if and only if scrollHeight > 300; an accepted resize gives width 700, a height in [140, 404], and 404 exactly when scrollHeight ≥ 300; a rejected resize leaves the window alone; text, isSending and the store calls are unchanged |
| Capture.BlankSubmitIsNoOp | src/App.jsx:57-59 | Cmd+Enter on empty or white-space-only text makes no store call and changes nothing |
| Capture.SubmitSendsRawText | src/App.jsx:78-97 | Cmd+Enter on non-blank text sets isSending and appends exactly one item to the store calls: content is the raw untrimmed text, status "inbox", type "task", source "fleeets-companion", and delegated is the heuristic's value; text and window are unchanged |
| Capture.PlainEnterOnlyTypes | src/App.jsx:56-61 | plain Enter neither submits nor hides, and its default action is not prevented |
| Capture.EscapeAlwaysHides | src/App.jsx:62-65 | Escape, with or without Cmd, runs hideWindow and prevents the default action |
| Capture.HideResets | src/App.jsx:46-54 | after hideWindow the text is "", the textarea is 36 high and does not scroll, and the window is 700×140, hidden and unfocused; isSending and the store calls are unchanged |
| Capture.HideIsIdempotent | src/App.jsx:46-54 | hideWindow twice gives the same state as once |
| Capture.StoredSubmitResets | src/App.jsx:99-106 | after a stored insert the state is the hidden state with isSending false: text "", textarea 36 with no scrolling, window 700×140 and hidden |
| Capture.FailedSubmitKeepsText | src/App.jsx:99-106 | after a failed insert the only change is that isSending is false, so the text and the window are kept |
| Capture.SubmitRoundTrip | src/App.jsx:56-107 | a submission from idle, delivered through the disabled textarea, sends exactly one item built from the raw text and ends idle; the text ends empty if and only if the insert succeeded; success hides the window, and failure keeps the text and the window |
| Capture.DisabledWhileSending | src/App.jsx:128 | while sending, no typing, Escape or repeated Cmd+Enter has any effect |
| Capture.KeyHandlerAloneResubmits | src/App.jsx:56-61 | handleKeyDown has no isSending guard, so called directly while sending it makes a second store call |
| Capture.SizesStayInRange | src/App.jsx:31-76 | once the textarea is at most 300 (and 300 when it scrolls) and the window is 700 wide and between 140 and 404, every event and every store reply keeps it so |
| Capture.TypeEnterSubmitSession | src/App.jsx:56-107 | typing a non-blank line, then plain Enter (which changes nothing, so the textarea adds the newline), then Cmd+Enter with a successful insert, stores exactly one item whose content is the line with its newline, and ends with empty text, a hidden window and isSending false |
| Capture.CallDentistIsNotDelegated | src/App.jsx:81-84 | "Call dentist\n" is not blank and not delegated, so the session above stores it with delegated false |
| CaptureApp.Controller.constructor | src/App.jsx:10-11 | the controller starts with empty text, not sending, a 36-high textarea without scrolling, and no store calls |
| CaptureApp.Controller.ResizeWindow | src/App.jsx:31-44 | on an accepted setSize the window becomes 700 × WindowHeight(h); a rejected one changes nothing |
| CaptureApp.Controller.HideWindow | src/App.jsx:46-54 | the new state is the hidden state (see Capture.HideResets) |
| CaptureApp.Controller.OnChange | src/App.jsx:124 | the text becomes the textarea's value and nothing else changes |
| CaptureApp.Controller.HandleInput | src/App.jsx:68-76 | the new state is the one Capture.InputSizesTextareaAndWindow describes |
| CaptureApp.Controller.BeginSubmit | src/App.jsx:78-97 | sets isSending and sends, and returns, the item built from the raw text |
| CaptureApp.Controller.FinishSubmit | src/App.jsx:99-106 | runs hideWindow on success and always clears isSending |
| CaptureApp.Controller.HandleKeyDown | src/App.jsx:56-66 | follows the key dispatch of the step function and prevents the default action exactly for Cmd+Enter and Escape |
| CaptureApp.Controller.Dispatch | src/App.jsx:121-128 | the disabled textarea drops every event while sending and otherwise passes it to its handler |
| CaptureApp.CaptureOnce | src/App.jsx:56-107 | a client that types non-blank text, submits it and gets a successful insert has sent exactly one item and left the window hidden at 700×140 |
| Tray.ShortcutTogglesVisibility | src-tauri/src/main.rs:79-87 | Alt+Space hides a visible window, shows and focuses a hidden one, flips the visibility, and touches neither the size nor the running flag |
| Tray.ToggleTwice | src-tauri/src/main.rs:79-87 | toggling twice restores the visibility, and it restores the whole window if and only if focus and visibility agreed |
| Tray.LeftClickIsShortcut | src-tauri/src/main.rs:43-51 | a left click on the tray icon has exactly the effect of Alt+Space |
| Tray.ShowIsIdempotent | src-tauri/src/main.rs:36-40 | "show" leaves the window visible and focused whatever its state, and choosing it again changes nothing |
| Tray.QuitAndIgnoredTrayEvents | src-tauri/src/main.rs:32-52 | "quit" stops the process; other menu ids, right clicks and double clicks change nothing; the process keeps running if and only if the event is not "quit" |
| Tray.FocusLostHides | src-tauri/src/main.rs:69-73 | losing focus hides the window, and every other window event changes nothing |
| Tray.HandlersKeepFocusOnScreen | src-tauri/src/main.rs:31-87 | no handler leaves a focused window hidden |
| Tray.Shell.constructor | src-tauri/src/main.rs:29-31 | the shell starts running on the given window |
| Tray.Shell.ToggleWindow | src-tauri/src/main.rs:79-87 | reads the visibility, then hides, or shows and focuses |
| Tray.Shell.OnShortcut | src-tauri/src/main.rs:79-87 | the shell's new state is the toggle of the old one |
| Tray.Shell.OnTrayEvent | src-tauri/src/main.rs:31-53 | the shell's new state is the tray step of the old one |
| Tray.Shell.OnWindowEvent | src-tauri/src/main.rs:69-73 | the shell's new state is the window-event step of the old one |
| Delegation.IsDelegate | src/App.jsx:81-84 | the lowercased text includes "дживс", or the raw text includes "#дд" or "#dd" |
| JsText.Trim | src/App.jsx:59 | `trim` removes the leading and then the trailing white space |
| Capture.NewItem | src/App.jsx:86-96 | the inserted record: the raw text, "inbox", "task", the owner literal, source "fleeets-companion" and the delegation flag |
| Capture.AfterResize | src/App.jsx:31-44 | resizeWindow's step: an accepted setSize makes the window 700 × WindowHeight(h); a rejected one changes nothing |
| Capture.AfterInput | src/App.jsx:68-76 | handleInput's step: clamp and overflow mode of the textarea, then the resize |
| Capture.AfterChange | src/App.jsx:124 | onChange's step: the text becomes the textarea's value |
| Capture.AfterHide | src/App.jsx:46-54 | hideWindow's step: clear the text, reset the textarea, size the window 700×140, hide it |
| Capture.AfterBeginSubmit | src/App.jsx:78-97 | handleSubmit up to the insert: isSending set and the item appended to the store calls |
| Capture.AfterFinishSubmit | src/App.jsx:99-106 | handleSubmit after the insert: hideWindow on success, and isSending cleared in every case |
| Capture.AfterKeyDown | src/App.jsx:56-66 | handleKeyDown's step: Cmd+Enter on non-blank text starts a submit, Escape hides, anything else changes nothing |
| Capture.AfterEvent | src/App.jsx:121-128 | the disabled textarea drops every event while sending and otherwise passes it to its handler |
| Tray.Toggle | src-tauri/src/main.rs:79-87 | hide a visible window; show and focus a hidden one |
| Tray.ShowFocused | src-tauri/src/main.rs:36-40 | show the window, then give it focus |
| Tray.AfterShortcut | src-tauri/src/main.rs:79-87 | the Alt+Space step is the toggle |
| Tray.AfterTrayEvent | src-tauri/src/main.rs:31-53 | the tray step: "quit" stops, "show" shows and focuses, a left click toggles, anything else changes nothing |
| Tray.AfterWindowEvent | src-tauri/src/main.rs:69-73 | the window-event step: losing focus hides, anything else changes nothing |
| Host.HostWindow.constructor | src-tauri/src/main.rs:55 | the window handle starts in the state the application gives it |
| Sizing.TextareaScrolls | src/App.jsx:73-74 | the textarea scrolls ("auto") exactly when scrollHeight > 300, and otherwise its overflow is "hidden" |
| Capture.Initial | src/App.jsx:10-11 | the mount state: empty text, not sending, a 36-high textarea without scrolling (the inline style of src/App.jsx:140-145), and no store calls |
| Capture.IsSubmitChord | src/App.jsx:57 | the submit chord is Enter with the meta (Cmd) key held |
| Capture.DefaultPrevented | src/App.jsx:57-63 | `preventDefault` is called for the submit chord and for Escape, and for no other key |
| Host.Resized | src/App.jsx:52 | setSize's effect: the width and height become the requested ones; visibility and focus are kept |
| Host.Focused | src-tauri/src/main.rs:39 | set_focus's effect (also at main.rs:49 and 85): the window has the program's focus; its size and visibility are kept |
| JsText.IsWhiteSpace | src/App.jsx:59 | the characters `trim` removes: ECMAScript WhiteSpace (tab, vertical tab, form feed, space, no-break space, byte-order mark, every Zs character) and LineTerminator (LF, CR, U+2028, U+2029) |
| JsText.IsBlank | src/App.jsx:59 | a text is blank when every character is one that `trim` removes |

## Left out

- Rendering is not modelled: the JSX markup, CSS classes, icons, the progress bar and the character counter (`src/App.jsx:109-175`). One exception is the `disabled` attribute, which is the gate in `Controller.Dispatch`.
- The store's insert call is network I/O. Only its reply is modelled, as `SinkOutcome`, and the items it was given are recorded in `sinkCalls`. The owner identifier is kept as the literal the source uses. Error logging (`console.error`) is not modelled.
- Focus plumbing is not modelled: focus on mount, the `onFocusChanged` subscription and its unlisten, and the 50 ms delayed `focus()` of the textarea. These are timing and subscription code, and they change no state that this model tracks.
- The measured `scrollHeight` is an input. `handleInput` reads `scrollHeight` twice, once for the clamp (src/App.jsx:71) and once for the overflow test (src/App.jsx:74) after setting the height; the model uses one measurement for both reads, which give the same answer to the `> 300` test.
- The newline the browser inserts on plain Enter is also an input; it arrives as a text change.
- `toLowerCase` is a character-wise mapping given as a parameter. Real Unicode lowercasing can change a string's length (for example U+0130), and that is not captured. JavaScript strings are UTF-16 code units, while Dafny characters are Unicode scalar values.
- Async interleavings are not modelled. `resizeWindow` is not awaited by `handleInput`, and here it completes at once. If `setSize` or `hide` throws inside `hideWindow`, the outcome depends on the caller. On the Escape path (src/App.jsx:62-65) the promise of `handleKeyDown` is dropped, so the rejection goes unhandled. On the submit path (src/App.jsx:80-106) `await hideWindow()` sits inside the `try`, so the rejection is caught and logged, and the `finally` still clears `isSending`. On both paths the text is already "" and the textarea already reset. If `setSize` throws (src/App.jsx:52), the window stays visible at its old size. If only `hide` throws (src/App.jsx:53), it stays visible at 700×140. The model has both host calls always complete. So "success hides the window" in `Capture.StoredSubmitResets`, `Capture.SubmitRoundTrip`, `Capture.TypeEnterSubmitSession` and `CaptureApp.CaptureOnce` holds only when `setSize` and `hide` succeed. A `setSize` failure in `resizeWindow` is modelled as the `accepted` input.
- `hideWindow` resets the textarea style only when the ref is set. The model treats the textarea as always mounted.
- Some shell code is not modelled: the macOS Cocoa calls (activation policy, transparent background), building the tray menu, registering the global shortcut, and the `unwrap` panics on a missing window. These are foreign calls, configuration and framework plumbing.
- `std::process::exit(0)` is modelled as the `running` flag turning false. The shell's handlers require `running`, since nothing runs after the process exits.
- The window's initial size and visibility come from the application's configuration. That file is not part of this model, so the initial `WindowState` is a parameter.
