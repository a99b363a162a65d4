/**
 * The character tests and the escaping function that the regex generator
 * borrows from Python. They are Unicode- and version-dependent library code,
 * so the model takes them as a parameter: a record of functions.
 */
module CharOracles {

  /** Python's classification of one character, and `re.escape` on one character. */
  datatype CharOracle = CharOracle(
    isDigit: char -> bool,   // str.isdigit
    isAlpha: char -> bool,   // str.isalpha
    isSpace: char -> bool,   // str.isspace
    reDigit: char -> bool,   // what the regex class \d accepts
    reSpace: char -> bool,   // what the regex class \s accepts
    escape: char -> string)  // re.escape applied to a one-character string

  /**
   * The shape of `re.escape` since Python 3.7: a character is returned as it
   * is or behind one backslash, and the backslash and `[` are always escaped.
   */
  predicate EscapeShape(o: CharOracle) {
    && (forall c :: o.escape(c) == [c] || o.escape(c) == ['\\', c])
    && o.escape('\\') == ['\\', '\\']
    && o.escape('[') == ['\\', '[']
  }

  /** `str.isalpha` holds for `d` and `s`, so the fallback never escapes them. */
  predicate LettersDS(o: CharOracle) {
    o.isAlpha('d') && o.isAlpha('s')
  }

  /** The characters that `re.escape` puts a backslash in front of (Python 3.7 and later). */
  const ReSpecial: set<char> :=
    {'(', ')', '[', ']', '{', '}', '?', '*', '+', '-', '|', '^', '$', '\\', '.',
     '&', '~', '#', ' ', '\t', '\n', '\r', '\U{0B}', '\U{0C}'}

  /** The ASCII whitespace characters for which `str.isspace` holds. */
  const AsciiSpace: set<char> :=
    {' ', '\t', '\n', '\r', '\U{0B}', '\U{0C}', '\U{1C}', '\U{1D}', '\U{1E}', '\U{1F}'}

  predicate IsAsciiDigit(c: char) { '0' <= c <= '9' }

  predicate IsAsciiLetter(c: char) { 'a' <= c <= 'z' || 'A' <= c <= 'Z' }

  /**
   * CPython's answers on ASCII characters. Every non-ASCII character is treated
   * as belonging to no class, so this instance is exact for ASCII input only.
   */
  const Ascii: CharOracle := CharOracle(
    c => IsAsciiDigit(c),
    c => IsAsciiLetter(c),
    c => c in AsciiSpace,
    c => IsAsciiDigit(c),
    c => c in AsciiSpace,
    c => if c in ReSpecial then ['\\', c] else [c])

  lemma AsciiEscapeShape()
    ensures EscapeShape(Ascii) && LettersDS(Ascii)
  {
  }
}
