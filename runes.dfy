/** Character classes of the search-query lexer.
    Every class is a small ASCII set; the rune with code 0 doubles as the
    reader's end-of-input sentinel and belongs to none of them. */
module RuneClasses {

  /** The value `read` hands back once the reader is exhausted (rune 0). */
  const EOF_RUNE: char := '\0'

  predicate IsWhitespace(c: char) {
    c == ' ' || c == '\t' || c == '\n'
  }

  predicate IsLetter(c: char) {
    ('a' <= c <= 'z') || ('A' <= c <= 'Z')
  }

  predicate IsDigit(c: char) {
    '0' <= c <= '9'
  }

  predicate IsOperation(c: char) {
    c == '>' || c == '<' || c == '=' || c == ':'
  }

  /** Whitespace, operator and digit classes, spelled out as the ASCII runes
      they accept (letters are the two ranges `a`-`z` and `A`-`Z`). */
  lemma ClassesAreAscii(c: char)
    ensures IsWhitespace(c) <==> c in " \t\n"
    ensures IsOperation(c) <==> c in "><=:"
    ensures IsDigit(c) <==> c in "0123456789"
  {
  }

  /** Whitespace, operator and letter runes never overlap, so at most one
      branch of the scanner's dispatch applies; the sentinel is in no class. */
  lemma ClassesDisjoint(c: char)
    ensures !(IsWhitespace(c) && IsOperation(c))
    ensures !(IsWhitespace(c) && IsLetter(c))
    ensures !(IsOperation(c) && IsLetter(c))
    ensures !(IsDigit(c) && (IsWhitespace(c) || IsOperation(c) || IsLetter(c)))
    ensures c == EOF_RUNE ==> !IsWhitespace(c) && !IsOperation(c) && !IsLetter(c) && !IsDigit(c)
  {
  }
}
