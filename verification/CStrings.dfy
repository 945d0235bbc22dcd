/** Strings that end with a null character, and the character classes of include/ctype.h. */
module CStrings {

  /** The character at k. */
  function At(s: string, k: nat): char {
    if k < |s| then s[k] else '\0'
  }

  predicate IsSpace(c: char) {
    c == 11 as char || c == '\t' || c == ' ' || c == '\n' || c == '\r' || c == 12 as char
  }

  predicate IsPrint(c: char) {
    ' ' <= c <= '~'
  }

  /** White space and printing characters are those of C99 in the "C" locale (sections 7.4.1.10 and 7.4.1.8):
      the blank and the five control characters from tab to return; and 95 characters from the blank on. */
  lemma ClassesOfC(c: char)
    ensures IsSpace(c) <==> c as int == 0x20 || 0x09 <= c as int <= 0x0D
    ensures IsPrint(c) <==> 0x20 <= c as int < 0x20 + 95
  {
  }

  // The letter classes, as the macros define them.

  predicate IsUpper(c: char) {
    'A' <= c <= 'Z'
  }

  predicate IsLower(c: char) {
    'a' <= c <= 'z'
  }

  /** The source joins the two classes by "and". */
  predicate IsAlpha(c: char) {
    IsUpper(c) && IsLower(c)
  }

  /** The bits 0xdf of a character. */
  function WithoutBit5(c: char): char {
    var low := c as nat % 0x100;
    if (low / 0x20) % 2 == 1 then (low - 0x20) as char else low as char
  }

  function ToUpper(c: char): char {
    if IsAlpha(c) then WithoutBit5(c) else c
  }

  /** So no character is a letter, */
  lemma NoAlpha(c: char)
    ensures !IsAlpha(c)
  {
  }

  /** and toupper changes nothing. */
  lemma ToUpperKeeps(c: char)
    ensures ToUpper(c) == c
  {
  }
}
