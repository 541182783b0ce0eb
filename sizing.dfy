/** Window and textarea sizing of the capture overlay (src/App.jsx).
    All quantities are CSS pixels. */
module Sizing {

  /** Window height with an empty or one-line buffer. */
  const BaseHeight: int := 140
  /** Height beyond which the textarea stops growing and scrolls. */
  const MaxTextareaHeight: int := 300
  /** Height of the textarea holding a single line. */
  const LineHeight: int := 36
  /** The window's requested width never changes. */
  const WindowWidth: int := 700
  /** The tallest window the overlay ever requests. */
  const MaxWindowHeight: int := BaseHeight + MaxTextareaHeight - LineHeight

  function Max(a: int, b: int): int { if a < b then b else a }
  function Min(a: int, b: int): int { if a < b then a else b }

  /** The height that resizeWindow requests for a given textarea height:
      the base height plus whatever the textarea grew past one line, capped. */
  function WindowHeight(textareaHeight: int): (h: int)
    ensures BaseHeight <= h <= MaxWindowHeight
    ensures textareaHeight <= LineHeight ==> h == BaseHeight
    ensures LineHeight <= textareaHeight <= MaxTextareaHeight ==>
              h == textareaHeight + (BaseHeight - LineHeight)
    ensures textareaHeight >= MaxTextareaHeight ==> h == MaxWindowHeight
  {
    var extraHeight := Max(0, textareaHeight - LineHeight);
    var newHeight := Min(BaseHeight + extraHeight, MaxWindowHeight);
    Max(BaseHeight, newHeight)
  }

  /** Taller textareas never give a shorter window. */
  lemma WindowHeightMonotonic(a: int, b: int)
    requires a <= b
    ensures WindowHeight(a) <= WindowHeight(b)
  {
  }

  /** The inline height handleInput gives the textarea for a measured scrollHeight. */
  function TextareaHeight(scrollHeight: nat): (h: nat)
    ensures h <= MaxTextareaHeight && h <= scrollHeight
    ensures h == scrollHeight || h == MaxTextareaHeight
  {
    Min(scrollHeight, MaxTextareaHeight)
  }

  /** Whether handleInput switches the textarea to internal scrolling ("auto"). */
  predicate TextareaScrolls(scrollHeight: nat)
  {
    scrollHeight > MaxTextareaHeight
  }

  /** The textarea shows all of its content whenever it does not scroll. */
  lemma NoScrollShowsEverything(scrollHeight: nat)
    ensures !TextareaScrolls(scrollHeight) <==> TextareaHeight(scrollHeight) == scrollHeight
  {
  }

  /** The window reaches its cap exactly when the content is at least as
      tall as the textarea's maximum; in particular, whenever it scrolls. */
  lemma WindowCapExactlyAtMaxTextarea(scrollHeight: nat)
    ensures (WindowHeight(TextareaHeight(scrollHeight)) == MaxWindowHeight)
              <==> (scrollHeight >= MaxTextareaHeight)
    ensures TextareaScrolls(scrollHeight) ==>
              WindowHeight(TextareaHeight(scrollHeight)) == MaxWindowHeight
  {
  }
}
