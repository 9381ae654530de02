/** What Go's `unicode.IsSpace` calls white space. */
module GoStrings {
  predicate SpaceCode(c: int) {
    || 9 <= c <= 13 || c == 32 || c == 0x85 || c == 0xa0 || c == 0x1680 || 0x2000 <= c <= 0x200a
    || c == 0x2028 || c == 0x2029 || c == 0x202f || c == 0x205f || c == 0x3000
  }

  /** U+0009 to U+000D, the blank, U+0085, U+00A0 and the space separators. */
  lemma SpaceCodesAre(c: int)
    ensures SpaceCode(c) <==> c in {
      0x09, 0x0a, 0x0b, 0x0c, 0x0d, 0x20, 0x85, 0xa0, 0x1680, 0x2000, 0x2001, 0x2002, 0x2003, 0x2004, 0x2005, 0x2006,
      0x2007, 0x2008, 0x2009, 0x200a, 0x2028, 0x2029, 0x202f, 0x205f, 0x3000 }
  {}
}
