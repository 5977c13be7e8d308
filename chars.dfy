/** Character classes shared by the number formatting and the case-id pattern. */
module Chars {
  /** `\d`, and the digits `Integer#to_s` writes. */
  predicate IsDigit(c: char) { '0' <= c <= '9' }
}
