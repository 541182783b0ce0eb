/** The few JavaScript string operations the overlay relies on:
    String.prototype.trim, String.prototype.includes and a character-wise
    String.prototype.toLowerCase. Strings are sequences of characters. */
module JsText {

  /** ECMA-262 WhiteSpace (section 12.2) and LineTerminator (section 12.3):
      the characters that String.prototype.trim removes. */
  predicate IsWhiteSpace(c: char)
  {
    || c == '\t' || c == '\n' || c == '\U{000B}' || c == '\U{000C}' || c == '\r'
    || c == ' ' || c == '\U{00A0}' || c == '\U{1680}'
    || ('\U{2000}' <= c <= '\U{200A}')
    || c == '\U{2028}' || c == '\U{2029}' || c == '\U{202F}' || c == '\U{205F}'
    || c == '\U{3000}' || c == '\U{FEFF}'
  }

  /** Every character of s is white space (the empty string included). */
  predicate IsBlank(s: string)
  {
    forall i :: 0 <= i < |s| ==> IsWhiteSpace(s[i])
  }

  /** Appending to a string with a visible character keeps it non-blank. */
  lemma NotBlankExtended(a: string, b: string)
    requires !IsBlank(a)
    ensures !IsBlank(a + b)
  {
    var k :| 0 <= k < |a| && !IsWhiteSpace(a[k]);
    assert (a + b)[k] == a[k];
  }

  /** s without its leading white space: the longest suffix of s that does
      not start with white space. */
  function TrimStart(s: string): (r: string)
    ensures |r| <= |s| && r == s[|s| - |r|..]
    ensures IsBlank(s[..|s| - |r|])
    ensures r == [] || !IsWhiteSpace(r[0])
  {
    if s == [] || !IsWhiteSpace(s[0]) then s
    else
      var r := TrimStart(s[1..]);
      assert s[1..][..|s| - 1 - |r|] == s[1..|s| - |r|];
      r
  }

  /** s without its trailing white space: the longest prefix of s that does
      not end with white space. */
  function TrimEnd(s: string): (r: string)
    ensures |r| <= |s| && r == s[..|r|]
    ensures IsBlank(s[|r|..])
    ensures r == [] || !IsWhiteSpace(r[|r| - 1])
  {
    if s == [] || !IsWhiteSpace(s[|s| - 1]) then s
    else
      var r := TrimEnd(s[..|s| - 1]);
      assert s[..|s| - 1][|r|..] == s[|r|..|s| - 1];
      r
  }

  /** String.prototype.trim. */
  function Trim(s: string): string
  {
    TrimEnd(TrimStart(s))
  }

  /** The overlay's `!text.trim()` test: trimming leaves nothing exactly
      when the text is all white space. */
  lemma TrimEmptyIffBlank(s: string)
    ensures Trim(s) == [] <==> IsBlank(s)
  {
    var t := TrimStart(s);
    if t == [] {
      assert s[..|s|] == s;
    } else {
      assert !IsWhiteSpace(s[|s| - |t|]);
    }
  }

  /** p occurs in s starting at index i. */
  predicate OccursAt(s: string, p: string, i: int)
  {
    0 <= i && i + |p| <= |s| && s[i..i + |p|] == p
  }

  lemma OccursAtShift(s: string, p: string, i: int)
    requires 1 <= i && s != []
    ensures OccursAt(s, p, i) <==> OccursAt(s[1..], p, i - 1)
  {
    if i + |p| <= |s| {
      assert s[1..][i - 1..i - 1 + |p|] == s[i..i + |p|];
    }
  }

  /** When p does not start s, p occurs in s exactly when it occurs in s's tail. */
  lemma OccursInTail(s: string, p: string)
    requires s != [] && !OccursAt(s, p, 0)
    ensures (exists i :: OccursAt(s, p, i)) <==> (exists j :: OccursAt(s[1..], p, j))
  {
    if exists i :: OccursAt(s, p, i) {
      var i :| OccursAt(s, p, i);
      OccursAtShift(s, p, i);
    }
    if exists j :: OccursAt(s[1..], p, j) {
      var j :| OccursAt(s[1..], p, j);
      OccursAtShift(s, p, j + 1);
    }
  }

  /** String.prototype.includes: p occurs somewhere in s. The empty string
      occurs in every string. */
  function Includes(s: string, p: string): (b: bool)
    ensures b <==> exists i :: OccursAt(s, p, i)
    decreases |s|
  {
    if |p| > |s| then false
    else if s[..|p|] == p then
      assert OccursAt(s, p, 0);
      true
    else
      OccursInTail(s, p);
      Includes(s[1..], p)
  }

  /** A string includes every infix written into it. */
  lemma IncludesInfix(a: string, p: string, b: string)
    ensures Includes(a + p + b, p)
  {
    assert (a + p + b)[|a|..|a| + |p|] == p;
    assert OccursAt(a + p + b, p, |a|);
  }

  /** A pattern whose first character never appears is never included. */
  lemma NotIncludedWithoutFirstChar(s: string, p: string)
    requires p != [] && p[0] !in s
    ensures !Includes(s, p)
  {
    forall i | 0 <= i && i + |p| <= |s| ensures !OccursAt(s, p, i) {
      assert s[i..i + |p|][0] == s[i];
    }
  }

  /** A pattern longer than the string is never included. */
  lemma NotIncludedWhenLonger(s: string, p: string)
    requires |p| > |s|
    ensures !Includes(s, p)
  {
  }

  /** toLowerCase, taken character-wise through a case mapping `lower`. */
  function LowerCase(lower: char -> char, s: string): (r: string)
    ensures |r| == |s|
    ensures forall i :: 0 <= i < |s| ==> r[i] == lower(s[i])
  {
    seq(|s|, i requires 0 <= i < |s| => lower(s[i]))
  }

  /** Lowercasing distributes over concatenation. */
  lemma LowerCaseConcat(lower: char -> char, a: string, b: string)
    ensures LowerCase(lower, a + b) == LowerCase(lower, a) + LowerCase(lower, b)
  {
    var l, r := LowerCase(lower, a + b), LowerCase(lower, a) + LowerCase(lower, b);
    assert |l| == |r|;
    forall i | 0 <= i < |l| ensures l[i] == r[i] {
      if i < |a| { assert (a + b)[i] == a[i]; } else { assert (a + b)[i] == b[i - |a|]; }
    }
  }
}
