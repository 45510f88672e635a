/**
 * The four character alphabets passwords are built from, their concatenation
 * `AllChars`, and the ASCII classification that the strength rubric's regular
 * expressions (`[A-Z]`, `[a-z]`, `[0-9]`, `[^a-zA-Z0-9]`) apply to a character.
 * Both copies of the engine declare the same constants.
 */
module CharSets {

  const Uppercase: string := "ABCDEFGHIJKLMNOPQRSTUVWXYZ"
  const Lowercase: string := "abcdefghijklmnopqrstuvwxyz"
  const Numbers: string := "0123456789"
  const Symbols: string := "!@#$%^&*()_+-=[]{}|;:,.<>?"

  /** The alphabets joined in declaration order: uppercase, lowercase, numbers, symbols. */
  const AllChars: string := Uppercase + Lowercase + Numbers + Symbols

  /** The four character classes, one per alphabet. */
  datatype CharClass = Upper | Lower | Digit | Symbol

  /** The class an ASCII pattern assigns to a character; everything that is
      not an ASCII letter or digit is a symbol. */
  function ClassOf(ch: char): CharClass
  {
    if 'A' <= ch <= 'Z' then Upper
    else if 'a' <= ch <= 'z' then Lower
    else if '0' <= ch <= '9' then Digit
    else Symbol
  }

  /** The alphabet generation draws from for class `c`. Every character of it
      is classified as `c`, so no character lies in two alphabets. */
  function Alphabet(c: CharClass): (a: string)
    ensures |a| >= 10
    ensures forall i :: 0 <= i < |a| ==> ClassOf(a[i]) == c
  {
    match c
    case Upper => Uppercase
    case Lower => Lowercase
    case Digit => Numbers
    case Symbol => Symbols
  }

  /** The four alphabets are pairwise disjoint. */
  lemma AlphabetsDisjoint(c1: CharClass, c2: CharClass, ch: char)
    requires ch in Alphabet(c1) && ch in Alphabet(c2)
    ensures c1 == c2
  {
    var i :| 0 <= i < |Alphabet(c1)| && Alphabet(c1)[i] == ch;
    var j :| 0 <= j < |Alphabet(c2)| && Alphabet(c2)[j] == ch;
    assert ClassOf(ch) == c1 && ClassOf(ch) == c2;
  }

  /** `AllChars` holds exactly the characters of the four alphabets, 88 positions in all. */
  lemma AllCharsIsUnion(ch: char)
    ensures ch in AllChars <==> exists c :: ch in Alphabet(c)
    ensures |AllChars| == 88
  {
    if ch in AllChars {
      if ch in Uppercase { assert ch in Alphabet(Upper); }
      else if ch in Lowercase { assert ch in Alphabet(Lower); }
      else if ch in Numbers { assert ch in Alphabet(Digit); }
      else { assert ch in Alphabet(Symbol); }
    }
  }
}
