/** Model of `somma_pari_prodotto_dispari` (13-02-2025_Esercizi/es2/operazioni.py):
    given a sequence of integers it returns the sum of its even elements and
    the product of its odd elements, the product being 0 when there is no odd
    element.

    Parity is decided by `n % 2`. Python's `%` rounds the quotient towards minus
    infinity, so with divisor 2 the remainder is 0 or 1 for every integer,
    negative ones included; Dafny's Euclidean `%` gives the same remainder, so
    `n % 2 == 0` means the same thing in both languages. Python integers are
    unbounded, as `int` is here. */
module Operazioni {

  /** The source's test for "even": `n % 2 == 0`. */
  predicate IsEven(n: int) {
    n % 2 == 0
  }

  /** Sum of a sequence, as Python's `sum` (0 for the empty sequence). */
  function Sum(s: seq<int>): int {
    if s == [] then 0 else Sum(s[..|s| - 1]) + s[|s| - 1]
  }

  /** Product of a sequence (1 for the empty sequence). */
  function Product(s: seq<int>): int {
    if s == [] then 1 else Product(s[..|s| - 1]) * s[|s| - 1]
  }

  /** The even elements of `s`, in order: what the generator
      `n for n in numeri if n % 2 == 0` yields. */
  function Evens(s: seq<int>): (r: seq<int>)
    ensures |r| <= |s|
    ensures forall x :: x in r <==> x in s && IsEven(x)
  {
    if s == [] then []
    else
      var x := s[|s| - 1];
      Evens(s[..|s| - 1]) + (if IsEven(x) then [x] else [])
  }

  /** The odd elements of `s`, in order: those the loop multiplies in. */
  function Odds(s: seq<int>): (r: seq<int>)
    ensures |r| <= |s|
    ensures forall x :: x in r <==> x in s && !IsEven(x)
  {
    if s == [] then []
    else
      var x := s[|s| - 1];
      Odds(s[..|s| - 1]) + (if IsEven(x) then [] else [x])
  }

  /** Some element of `s` is odd. */
  predicate HasOdd(s: seq<int>) {
    exists i :: 0 <= i < |s| && !IsEven(s[i])
  }

  /** The function of the source. The even sum is the generator expression of
      line 2; the odd product is the loop with its flag, followed by the
      override with 0 when the flag stayed false. */
  method SommaPariProdottoDispari(numeri: seq<int>) returns (sommaPari: int, prodottoDispari: int)
    ensures sommaPari == Sum(Evens(numeri))
    ensures HasOdd(numeri) ==> prodottoDispari == Product(Odds(numeri))
    ensures !HasOdd(numeri) ==> prodottoDispari == 0
    ensures prodottoDispari != 0 <==> HasOdd(numeri)
    ensures numeri == [] ==> sommaPari == 0 && prodottoDispari == 0
  {
    sommaPari := Sum(Evens(numeri));
    prodottoDispari := 1;
    var almenoUnDispari := false;
    for i := 0 to |numeri|
      invariant almenoUnDispari <==> HasOdd(numeri[..i])
      invariant prodottoDispari == Product(Odds(numeri[..i]))
    {
      var n := numeri[i];
      assert numeri[..i + 1] == numeri[..i] + [n];
      assert numeri[..i + 1][..i] == numeri[..i];
      if n % 2 != 0 {
        ghost var o := Odds(numeri[..i]);
        assert Odds(numeri[..i + 1]) == o + [n];
        assert (o + [n])[..|o|] == o;
        prodottoDispari := prodottoDispari * n;
        almenoUnDispari := true;
      } else {
        assert Odds(numeri[..i + 1]) == Odds(numeri[..i]);
      }
    }
    assert numeri[..|numeri|] == numeri;
    if !almenoUnDispari {
      prodottoDispari := 0;
    } else {
      ProductOfOddsNonZero(numeri);
    }
  }

  /** The product of two odd integers is odd. */
  lemma OddTimesOdd(a: int, b: int)
    requires !IsEven(a) && !IsEven(b)
    ensures !IsEven(a * b)
  {
    var k, m := a / 2, b / 2;
    assert a == 2 * k + 1;
    assert b == 2 * m + 1;
    assert a * b == 2 * (2 * k * m + k + m) + 1;
  }

  /** A product of odd integers is odd. */
  lemma {:induction false} ProductOfOddIsOdd(t: seq<int>)
    requires forall i :: 0 <= i < |t| ==> !IsEven(t[i])
    ensures !IsEven(Product(t))
  {
    if t != [] {
      ProductOfOddIsOdd(t[..|t| - 1]);
      OddTimesOdd(Product(t[..|t| - 1]), t[|t| - 1]);
    }
  }

  /** The product the loop accumulates is odd, hence never 0: this is why the
      caller may read a non-zero product as "there was an odd number". */
  lemma ProductOfOddsNonZero(s: seq<int>)
    ensures !IsEven(Product(Odds(s)))
    ensures Product(Odds(s)) != 0
  {
    var t := Odds(s);
    forall i | 0 <= i < |t| ensures !IsEven(t[i]) {
      assert t[i] in t;
    }
    ProductOfOddIsOdd(t);
  }

  /** There is an odd element exactly when the sequence of odd elements is
      non-empty, i.e. when the loop sets its flag at least once. */
  lemma HasOddIffOddsNonEmpty(s: seq<int>)
    ensures HasOdd(s) <==> Odds(s) != []
  {
  }

  /** Every element goes to exactly one of the two aggregates, with its
      multiplicity: the evens and the odds together are a permutation of the
      input. */
  lemma {:induction false} ParityPartition(s: seq<int>)
    ensures multiset(Evens(s)) + multiset(Odds(s)) == multiset(s)
  {
    if s != [] {
      var p, x := s[..|s| - 1], s[|s| - 1];
      ParityPartition(p);
      assert s == p + [x];
    }
  }

  /** The sum of the evens plus the sum of the odds is the sum of all: odd
      elements contribute nothing to the first result, and every even one
      contributes once. */
  lemma {:induction false} SumSplitsByParity(s: seq<int>)
    ensures Sum(Evens(s)) + Sum(Odds(s)) == Sum(s)
  {
    if s != [] {
      var p, x := s[..|s| - 1], s[|s| - 1];
      SumSplitsByParity(p);
      var e, o := Evens(p), Odds(p);
      if IsEven(x) {
        assert Evens(s) == e + [x];
        assert (e + [x])[..|e|] == e;
        assert Odds(s) == o;
      } else {
        assert Odds(s) == o + [x];
        assert (o + [x])[..|o|] == o;
        assert Evens(s) == e;
      }
    }
  }

  /** Negative numbers are classified as Python classifies them: -3 and -5
      are odd (`-3 % 2 == 1`) and enter the product, not the sum. */
  lemma NegativeOddsEnterProduct()
    ensures Evens([-3, 4, -5]) == [4]
    ensures Odds([-3, 4, -5]) == [-3, -5]
    ensures Sum(Evens([-3, 4, -5])) == 4
    ensures Product(Odds([-3, 4, -5])) == 15
  {
  }
}
