# Parity aggregator and palindrome check

A Dafny model of the two self-contained exercise functions of the course
repository:

- `somma_pari_prodotto_dispari` (module `Operazioni`, file `operazioni.dfy`):
  takes any number of integers and returns the pair (sum of the even ones,
  product of the odd ones), where the product is replaced by 0 when no
  number is odd. The even sum is a generator expression and is modelled as the
  pure expression `Sum(Evens(numeri))`. The odd product is a loop that
  multiplies and raises the flag `almeno_un_dispari`. It is modelled as a
  method with that loop and its invariants, proved against the
  specification functions `Evens`, `Odds`, `Sum`, `Product` and `HasOdd`.
  Python's variadic `*numeri` becomes a `seq<int>`. Python integers are
  unbounded, like Dafny's `int`. Parity is `n % 2 == 0` in both languages:
  Python's floored `%` and Dafny's Euclidean `%` agree for divisor 2, negative
  numbers included.
- `is_palindrome` (module `Palindroma`, file `palindroma.dfy`): a word is a
  palindrome when it equals `word[::-1]`. It is modelled as the function
  `IsPalindrome` over `Reverse`, with lemmas relating it to the index-wise
  mirror condition and to reversal.

## Model

| member | source | states |
|---|---|---|
| `Operazioni.SommaPariProdottoDispari` | 13-02-2025_Esercizi/es2/operazioni.py:1-14 | first result is the sum of the even elements; second is the product of the odd elements when there is one and 0 otherwise; second is non-zero iff some element is odd; empty input gives (0, 0); loop invariant: flag iff the prefix has an odd element, product equals the product of the prefix's odd elements |
| `Operazioni.Evens` | 13-02-2025_Esercizi/es2/operazioni.py:2 | the generator keeps exactly the elements `n` with `n % 2 == 0`, and no more elements than the input has |
| `Operazioni.Odds` | 13-02-2025_Esercizi/es2/operazioni.py:6-8 | the loop multiplies in exactly the elements `n` with `n % 2 != 0` |
| `Operazioni.ProductOfOddIsOdd` | 13-02-2025_Esercizi/es2/operazioni.py:6-8 | a product of odd integers is odd |
| `Operazioni.OddTimesOdd` | 13-02-2025_Esercizi/es2/operazioni.py:8 | one step of the loop keeps the product odd |
| `Operazioni.ProductOfOddsNonZero` | 13-02-2025_Esercizi/es2/main.py:13-14 | the product of the odd elements is odd, hence never 0, so the caller's `!= 0` test correctly means "there was an odd number" |
| `Operazioni.HasOddIffOddsNonEmpty` | 13-02-2025_Esercizi/es2/operazioni.py:6-12 | the flag is raised (some element is odd) exactly when the sequence of odd elements is non-empty |
| `Operazioni.ParityPartition` | 13-02-2025_Esercizi/es2/operazioni.py:2-9 | the even and the odd elements together are a permutation of the input: each element goes to exactly one aggregate |
| `Operazioni.SumSplitsByParity` | 13-02-2025_Esercizi/es2/operazioni.py:2 | sum of evens plus sum of odds is the sum of all elements, so odd elements contribute nothing to the first result |
| `Operazioni.NegativeOddsEnterProduct` | 13-02-2025_Esercizi/es2/operazioni.py:2-8 | for [-3, 4, -5]: -3 and -5 are odd and give the product 15; only 4 is summed |
| `Palindroma.Reverse` | 13-02-2025_Esercizi/es3/palindroma.py:2 | `word[::-1]` has the word's length and holds at index i the character at index len(word) - 1 - i |
| `Palindroma.IsPalindrome` | 13-02-2025_Esercizi/es3/palindroma.py:1-2 | true iff every character equals its mirror image, `word[i] == word[len(word) - 1 - i]` |
| `Palindroma.ReverseInvolution` | 13-02-2025_Esercizi/es3/palindroma.py:2 | reversing twice gives the word back |
| `Palindroma.ReverseConcat` | 13-02-2025_Esercizi/es3/palindroma.py:2 | the reversal of a + b is the reversal of b followed by that of a |
| `Palindroma.PalindromeOfReverse` | 13-02-2025_Esercizi/es3/palindroma.py:2 | a word is a palindrome iff its reversal is |
| `Palindroma.ShortWordsArePalindromes` | 13-02-2025_Esercizi/es3/palindroma.py:2 | the empty word and every one-character word are palindromes |
| `Palindroma.PalindromeByEnds` | 13-02-2025_Esercizi/es3/palindroma.py:2 | a word of length two or more is a palindrome iff its end characters agree and the inside is a palindrome |
| `Palindroma.CaseSensitive` | 13-02-2025_Esercizi/es3/palindroma.py:2 | the comparison is exact: "anna" is a palindrome, "Anna" is not |

## Left out

- The console front ends (`13-02-2025_Esercizi/es2/main.py`, the `__main__` block of `palindroma.py`): reading and parsing input with `input`, `split(",")` and `int(...)`, and printing. Only the `!= 0` test of `main.py` is reflected, by `ProductOfOddsNonZero` and the method's non-zero postcondition.
- `13-02-2025_Esercizi/es1/equazione_secondo_grado.py`: floating-point and complex arithmetic through `cmath.sqrt`, which this model does not cover.
- The retrieval-augmented-generation pipeline, the chatbots and the computer-vision scripts: calls into external language models, vector stores, cameras and recognisers, with no logic of their own to model.
