/** Classes of characters, letter by letter, and the ranges of code points they are. */
module Characters {
  const UPPER: set<char> := {'A', 'B', 'C', 'D', 'E', 'F', 'G', 'H', 'I', 'J', 'K', 'L', 'M', 'N', 'O', 'P', 'Q', 'R', 'S', 'T', 'U', 'V', 'W', 'X', 'Y', 'Z'}
  const LOWER: set<char> := {'a', 'b', 'c', 'd', 'e', 'f', 'g', 'h', 'i', 'j', 'k', 'l', 'm', 'n', 'o', 'p', 'q', 'r', 's', 't', 'u', 'v', 'w', 'x', 'y', 'z'}
  const DIGITS: set<char> := {'0', '1', '2', '3', '4', '5', '6', '7', '8', '9'}

  lemma InUpper(c: char)
    ensures c in UPPER <==> 'A' <= c <= 'Z'
  {
  }

  lemma InLower(c: char)
    ensures c in LOWER <==> 'a' <= c <= 'z'
  {
  }

  lemma InDigits(c: char)
    ensures c in DIGITS <==> '0' <= c <= '9'
  {
  }
}
