/** The names that may log in with a password. */
module Usernames {
  predicate AllowedChar(c: char) {
    'a' <= c <= 'z' || 'A' <= c <= 'Z' || '0' <= c <= '9' || c == '.' || c == '_' || c == '@' || c == '-'
  }

  /** All allowed characters are ASCII, so the length in bytes is the length. */
  predicate ValidateUsername(user: string) {
    && user != ""
    && |user| <= 64
    && forall i :: 0 <= i < |user| ==> AllowedChar(user[i])
  }

  const LOWER: set<char> :=
    {'a', 'b', 'c', 'd', 'e', 'f', 'g', 'h', 'i', 'j', 'k', 'l', 'm',
     'n', 'o', 'p', 'q', 'r', 's', 't', 'u', 'v', 'w', 'x', 'y', 'z'}
  const UPPER: set<char> :=
    {'A', 'B', 'C', 'D', 'E', 'F', 'G', 'H', 'I', 'J', 'K', 'L', 'M',
     'N', 'O', 'P', 'Q', 'R', 'S', 'T', 'U', 'V', 'W', 'X', 'Y', 'Z'}
  const OTHERS: set<char> := {'0', '1', '2', '3', '4', '5', '6', '7', '8', '9', '.', '_', '@', '-'}

  /** The allowed names, listed: 1 to 64 of these 66 characters. */
  lemma UsernamesExactly(user: string)
    ensures ValidateUsername(user) <==>
            1 <= |user| <= 64 && forall c :: c in user ==> c in LOWER || c in UPPER || c in OTHERS
  {
    forall c
      ensures AllowedChar(c) <==> c in LOWER || c in UPPER || c in OTHERS
    {
      assert c in LOWER <==> 'a' <= c <= 'z';
      assert c in UPPER <==> 'A' <= c <= 'Z';
    }
  }
}
