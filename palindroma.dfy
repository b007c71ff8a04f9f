/** Model of `is_palindrome` (13-02-2025_Esercizi/es3/palindroma.py): a word is
    a palindrome when it equals its reversal `word[::-1]`. Strings are
    sequences of characters and the comparison is exact: no case folding, no
    removal of spaces or punctuation. */
module Palindroma {

  /** The reversal `word[::-1]`: the character at index i of the result is the
      one at index |word| - 1 - i of the word. */
  function Reverse(word: string): (r: string)
    ensures |r| == |word|
    ensures forall i :: 0 <= i < |word| ==> r[i] == word[|word| - 1 - i]
  {
    if word == [] then [] else Reverse(word[1..]) + [word[0]]
  }

  /** `word == word[::-1]`, which holds exactly when every character equals
      its mirror image. */
  function IsPalindrome(word: string): (r: bool)
    ensures r <==> forall i :: 0 <= i < |word| ==> word[i] == word[|word| - 1 - i]
  {
    word == Reverse(word)
  }

  /** Reversing twice gives the word back. */
  lemma ReverseInvolution(word: string)
    ensures Reverse(Reverse(word)) == word
  {
  }

  /** Reversal turns a concatenation around. */
  lemma ReverseConcat(a: string, b: string)
    ensures Reverse(a + b) == Reverse(b) + Reverse(a)
  {
  }

  /** A word is a palindrome exactly when its reversal is. */
  lemma PalindromeOfReverse(word: string)
    ensures IsPalindrome(word) <==> IsPalindrome(Reverse(word))
  {
  }

  /** The empty word and every one-character word are palindromes. */
  lemma ShortWordsArePalindromes(word: string)
    requires |word| <= 1
    ensures IsPalindrome(word)
  {
  }

  /** The two-ended characterisation: a word of two or more characters is a
      palindrome exactly when its first and last characters agree and the
      word between them is a palindrome. */
  lemma PalindromeByEnds(word: string)
    requires |word| >= 2
    ensures IsPalindrome(word) <==>
      word[0] == word[|word| - 1] && IsPalindrome(word[1..|word| - 1])
  {
  }

  /** The comparison is case-sensitive: "anna" is a palindrome and "Anna" is
      not. */
  lemma CaseSensitive()
    ensures IsPalindrome("anna")
    ensures !IsPalindrome("Anna")
  {
  }
}
