/**
 The string hash that identifies a workflow's input: a loop over UTF-16 code units in the 32-bit
 arithmetic of ECMA-262, and the polynomial it computes.
 */
module HashCode {
  /** A UTF-16 code unit, as `charCodeAt` returns it. */
  type CodeUnit = n: nat | n < 0x1_0000

  const TWO_32 := 0x1_0000_0000

  /** ToInt32, section 7.1.6 of ECMA-262, on integers. */
  function ToInt32(n: int): int {
    if n % TWO_32 >= 0x8000_0000 then n % TWO_32 - TWO_32 else n % TWO_32
  }

  /** Two integers with the same 32-bit reduction. */
  predicate Congruent(a: int, b: int) {
    (a - b) % TWO_32 == 0
  }

  function Pow31(n: nat): nat {
    if n == 0 then 1 else 31 * Pow31(n - 1)
  }

  /** The sum of s[i] * 31 ^ (|s| - 1 - i). */
  function Polynomial(s: seq<CodeUnit>): nat {
    if s == [] then 0 else s[0] * Pow31(|s| - 1) + Polynomial(s[1..])
  }

  lemma CongruentIffSameInt32(a: int, b: int)
    ensures Congruent(a, b) <==> ToInt32(a) == ToInt32(b)
  {
  }

  lemma Int32IsCongruent(n: int)
    ensures Congruent(ToInt32(n), n)
    ensures -0x8000_0000 <= ToInt32(n) < 0x8000_0000
  {
  }

  lemma CongruentSum(a: int, b: int, c: int, d: int)
    requires Congruent(a, b) && Congruent(c, d)
    ensures Congruent(a + c, b + d)
  {
    assert a + c - (b + d) == (a - b) + (c - d);
  }

  lemma CongruentMul(a: int, b: int, c: int)
    requires Congruent(a, b)
    ensures Congruent(a * c, b * c)
  {
    var k := (a - b) / TWO_32;
    assert a - b == k * TWO_32;
    assert a * c - b * c == (a - b) * c == (k * c) * TWO_32;
    assert ((k * c) * TWO_32) % TWO_32 == 0;
  }

  lemma {:induction false} Pow31Add(m: nat, n: nat)
    ensures Pow31(m + n) == Pow31(m) * Pow31(n)
  {
    if m > 0 {
      Pow31Add(m - 1, n);
    }
  }

  lemma Distribute(a: int, b: int, c: int, d: int)
    ensures (a * b + c) * d == a * (b * d) + c * d
  {
  }

  lemma {:induction false} PolynomialConcat(s: seq<CodeUnit>, t: seq<CodeUnit>)
    ensures Polynomial(s + t) == Polynomial(s) * Pow31(|t|) + Polynomial(t)
  {
    if s == [] {
      assert s + t == t;
    } else {
      PolynomialConcat(s[1..], t);
      assert (s + t)[1..] == s[1..] + t;
      Pow31Add(|s| - 1, |t|);
      Distribute(s[0], Pow31(|s| - 1), Polynomial(s[1..]), Pow31(|t|));
    }
  }

  /** One turn of the loop: the shift and the `|= 0` both reduce to 32 bits. */
  function Turn(hash: int, unit: CodeUnit): int {
    ToInt32(ToInt32(hash * 32) - hash + unit)
  }

  lemma TurnIsHorner(hash: int, polynomial: int, unit: CodeUnit)
    requires Congruent(hash, polynomial)
    ensures Turn(hash, unit) == ToInt32(polynomial * 31 + unit)
  {
    Int32IsCongruent(hash * 32);
    CongruentSum(ToInt32(hash * 32), hash * 32, unit - hash, unit - hash);
    assert Congruent(hash * 31, polynomial * 31) by {
      CongruentMul(hash, polynomial, 31);
    }
    CongruentSum(hash * 31, polynomial * 31, unit, unit);
    CongruentSum(ToInt32(hash * 32) - hash + unit, hash * 31 + unit, hash * 31 + unit, polynomial * 31 + unit);
    CongruentIffSameInt32(ToInt32(hash * 32) - hash + unit, polynomial * 31 + unit);
  }

  /** The loop computes the 32-bit reduction of the polynomial, for strings of any length. */
  method Hash(s: seq<CodeUnit>) returns (hash: int)
    ensures hash == ToInt32(Polynomial(s))
    ensures -0x8000_0000 <= hash < 0x8000_0000
  {
    hash := 0;
    for i := 0 to |s|
      invariant hash == ToInt32(Polynomial(s[..i]))
    {
      Int32IsCongruent(Polynomial(s[..i]));
      TurnIsHorner(hash, Polynomial(s[..i]), s[i]);
      PolynomialConcat(s[..i], [s[i]]);
      assert s[..i + 1] == s[..i] + [s[i]];
      hash := ToInt32(hash * 32) - hash + s[i];
      hash := ToInt32(hash);
    }
    Int32IsCongruent(Polynomial(s[..|s|]));
    assert s[..|s|] == s;
  }

  /** The hash of a concatenation follows from the hashes of its parts. */
  lemma HashOfConcatenation(s: seq<CodeUnit>, t: seq<CodeUnit>)
    ensures ToInt32(Polynomial(s + t)) == ToInt32(ToInt32(Polynomial(s)) * Pow31(|t|) + ToInt32(Polynomial(t)))
  {
    PolynomialConcat(s, t);
    Int32IsCongruent(Polynomial(s));
    Int32IsCongruent(Polynomial(t));
    CongruentMul(ToInt32(Polynomial(s)), Polynomial(s), Pow31(|t|));
    CongruentSum(ToInt32(Polynomial(s)) * Pow31(|t|), Polynomial(s) * Pow31(|t|), ToInt32(Polynomial(t)), Polynomial(t));
    CongruentIffSameInt32(ToInt32(Polynomial(s)) * Pow31(|t|) + ToInt32(Polynomial(t)), Polynomial(s + t));
  }
}
