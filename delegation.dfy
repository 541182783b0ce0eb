/** The keyword heuristic that marks a captured item as delegated
    (src/App.jsx, handleSubmit). */
module Delegation {
  import opened JsText

  /** The trigger word, matched after lowercasing the text. */
  const Word: string := "дживс"
  /** The two hashtags, matched against the raw text. */
  const TagRu: string := "#дд"
  const TagEn: string := "#dd"

  /** An item is delegated when the lowercased text contains the trigger word
      or the raw text contains either hashtag. `lower` is the character-wise
      lowercase mapping. */
  predicate IsDelegate(lower: char -> char, text: string)
  {
    || Includes(LowerCase(lower, text), Word)
    || Includes(text, TagRu)
    || Includes(text, TagEn)
  }

  /** Any text holding "#dd" is delegated, whatever the case mapping. */
  lemma TagEnDelegates(lower: char -> char, before: string, after: string)
    ensures IsDelegate(lower, before + TagEn + after)
  {
    IncludesInfix(before, TagEn, after);
  }

  /** Any text holding "#дд" is delegated, whatever the case mapping. */
  lemma TagRuDelegates(lower: char -> char, before: string, after: string)
    ensures IsDelegate(lower, before + TagRu + after)
  {
    IncludesInfix(before, TagRu, after);
  }

  /** The trigger word is matched case-insensitively: any spelling of it
      that lowercases to "дживс" ("Дживс", "ДЖИВС", ...) delegates. */
  lemma WordDelegatesInAnyCase(lower: char -> char, before: string, word: string, after: string)
    requires LowerCase(lower, word) == Word
    ensures IsDelegate(lower, before + word + after)
  {
    LowerCaseConcat(lower, before + word, after);
    LowerCaseConcat(lower, before, word);
    IncludesInfix(LowerCase(lower, before), Word, LowerCase(lower, after));
  }

  /** The hashtags are matched case-sensitively: "#DD" and "#ДД" alone are
      not delegated, whatever the case mapping. */
  lemma UpperCaseTagsDoNotDelegate(lower: char -> char)
    ensures !IsDelegate(lower, "#DD")
    ensures !IsDelegate(lower, "#ДД")
  {
    NotIncludedWhenLonger(LowerCase(lower, "#DD"), Word);
    NotIncludedWhenLonger(LowerCase(lower, "#ДД"), Word);
    assert "#DD" != TagEn && "#DD" != TagRu && "#ДД" != TagEn && "#ДД" != TagRu;
    assert !OccursAt("#DD", TagEn, 0) && !OccursAt("#DD", TagRu, 0);
    assert !OccursAt("#ДД", TagEn, 0) && !OccursAt("#ДД", TagRu, 0);
  }

  /** "привет дживс" is delegated under any case mapping that leaves the
      lowercase trigger word alone. */
  lemma GreetingWithWordDelegates(lower: char -> char)
    requires LowerCase(lower, Word) == Word
    ensures IsDelegate(lower, "привет дживс")
  {
    assert "привет дживс" == "привет " + Word + "";
    WordDelegatesInAnyCase(lower, "привет ", Word, "");
  }

  /** "buy milk" is not delegated under a case mapping that leaves it alone. */
  lemma PlainTextDoesNotDelegate(lower: char -> char)
    requires LowerCase(lower, "buy milk") == "buy milk"
    ensures !IsDelegate(lower, "buy milk")
  {
    NotIncludedWithoutFirstChar("buy milk", Word);
    NotIncludedWithoutFirstChar("buy milk", TagRu);
    NotIncludedWithoutFirstChar("buy milk", TagEn);
  }
}
