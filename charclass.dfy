/** Character predicates of the scanner: the token-shape tests used by the
    builder and the whitespace test used by the tokenizer. */
module CharClass {

  /** An alphabet or symbol field of length one names that character. */
  predicate IsChar(s: string) { |s| == 1 }

  /** A symbol field of length three names the range from its first to its
      last character (the middle character is not inspected). */
  predicate IsRange(s: string) { |s| == 3 }

  /** The scanner's own notion of whitespace: space, tab and vertical tab only. */
  predicate IsWhiteSpace(c: char) { c == ' ' || c == '\t' || c == '\U{000B}' }

  /** Codes that denote a Dafny `char` (Unicode scalar values). */
  predicate IsCode(k: int) { 0 <= k < 0xD800 || 0xE000 <= k < 0x11_0000 }

  /** Every character from `lo` to `hi`, both included; empty when `lo > hi`.
      This is what the loop `for (char c = lo; c <= hi; c++)` visits. */
  function Span(lo: char, hi: char): (r: set<char>)
    ensures forall c :: c in r <==> lo <= c <= hi
  {
    var r := set k | lo as int <= k <= hi as int && IsCode(k) :: k as char;
    forall c | lo <= c <= hi ensures c in r {
      assert IsCode(c as int) && (c as int) as char == c;
    }
    r
  }

  /** The characters of a string, as a set. */
  function Elems(s: string): set<char>
  {
    set c | c in s
  }
}
