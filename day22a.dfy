/** Monkey market secrets: each buyer's secret number evolves by three
    mix-and-prune steps (multiply by 64, divide by 32, multiply by 2048, each
    result XORed into the number and cut to 24 bits); the answer is the sum of
    every buyer's secret after 2000 evolutions. */
module Day22a {
  import opened Common
  import opened Text

  /** The prune modulus, 2^24. */
  const MODULUS: nat := 16777216

  /** The low `k` bits of `x`, as a number. */
  function Low(x: nat, k: nat): (r: nat)
  {
    if k == 0 then 0 else x % 2 + 2 * Low(x / 2, k - 1)
  }

  /** The low `k` bits are the remainder by `2^k`. */
  lemma {:induction false} LowIsRemainder(x: nat, k: nat)
    ensures Pow(2, k) > 0 && Low(x, k) == x % Pow(2, k)
  {
    PowPositive(2, k);
    if k > 0 {
      var p := Pow(2, k - 1);
      LowIsRemainder(x / 2, k - 1);
      PowPositive(2, k - 1);
      var q, r := (x / 2) / p, (x / 2) % p;
      assert x / 2 == q * p + r;
      assert x == q * (2 * p) + (2 * r + x % 2);
      ModUnique(x, 2 * p, q, 2 * r + x % 2);
    }
  }

  /** Pruning commutes with mixing: the low `k` bits of `Xor(a, b)` are the
      `Xor` of the low `k` bits. */
  lemma {:induction false} XorLowBits(a: nat, b: nat, k: nat)
    ensures Low(Xor(a, b), k) == Xor(Low(a, k), Low(b, k))
  {
    if k == 0 {
      assert Xor(0, 0) == 0;
    } else {
      var a', b' := Low(a, k), Low(b, k);
      XorLowBits(a / 2, b / 2, k - 1);
      XorUnfold(a, b);
      LowUnfold(a, k);
      LowUnfold(b, k);
      XorUnfold(a', b');
      assert Xor(a', b') == Xor(a', b') % 2 + 2 * (Xor(a', b') / 2);
    }
  }

  lemma LowUnfold(x: nat, k: nat)
    requires k > 0
    ensures Low(x, k) % 2 == x % 2 && Low(x, k) / 2 == Low(x / 2, k - 1)
  {
    ModUnique(Low(x, k), 2, Low(x / 2, k - 1), x % 2);
  }

  /** `multiply_step`: mix in `input * arg`, prune to 24 bits; the product
      must fit in a `u64` (the multiplication panics otherwise). */
  function MultiplyStep(input: nat, arg: nat): (r: nat)
    requires input < U64_LIMIT && input * arg < U64_LIMIT
    ensures r < MODULUS
  {
    Xor(input, input * arg) % MODULUS
  }

  /** `divide_step`: mix in `input / arg`, prune to 24 bits. */
  function DivideStep(input: nat, arg: nat): (r: nat)
    requires arg > 0
    ensures r < MODULUS
  {
    Xor(input, input / arg) % MODULUS
  }

  /** 2^24 is `Pow(2, 24)`. */
  lemma ModulusIsPower()
    ensures MODULUS == Pow(2, 24)
  {
    assert Pow(2, 6) == 64;
    PowAdd(2, 6, 6);
    PowAdd(2, 12, 12);
  }

  /** The multiply step only sees the low 24 bits of its input: pruning the
      input first changes nothing. */
  lemma MultiplyStepLowBits(input: nat, arg: nat)
    requires input < U64_LIMIT && input * arg < U64_LIMIT
    ensures MultiplyStep(input, arg) == MultiplyStep(input % MODULUS, arg)
  {
    var low := input % MODULUS;
    MulMonotone(low, input, arg);
    ProductLowBits(input, arg);
    MixRemainder(input, input * arg, low, low * arg);
  }

  /** Mixing numbers with the same low 24 bits gives the same pruned result. */
  lemma MixRemainder(a: nat, b: nat, a': nat, b': nat)
    requires a % MODULUS == a' % MODULUS && b % MODULUS == b' % MODULUS
    ensures Xor(a, b) % MODULUS == Xor(a', b') % MODULUS
  {
    XorRemainder(a, b);
    XorRemainder(a', b');
  }

  /** The low-bits lemma at 24 bits, as remainders. */
  lemma XorRemainder(a: nat, b: nat)
    ensures Xor(a, b) % MODULUS == Xor(a % MODULUS, b % MODULUS)
  {
    ModulusIsPower();
    LowIsRemainder(a, 24);
    LowIsRemainder(b, 24);
    LowIsRemainder(Xor(a, b), 24);
    XorLowBits(a, b, 24);
  }

  lemma ProductLowBits(x: nat, k: nat)
    ensures (x * k) % MODULUS == ((x % MODULUS) * k) % MODULUS
  {
    var q, r := x / MODULUS, x % MODULUS;
    assert x * k == (q * k) * MODULUS + r * k;
    ModAddMultiple(r * k, q * k, MODULUS);
  }

  lemma ModAddMultiple(n: nat, q: nat, m: nat)
    requires m > 0
    ensures (q * m + n) % m == n % m
  {
    ModUnique(q * m + n, m, q + n / m, n % m);
  }

  /** On a pruned number the divide step prunes nothing: it is a plain mix. */
  lemma DivideStepNoPrune(input: nat, arg: nat)
    requires input < MODULUS && arg > 0
    ensures DivideStep(input, arg) == Xor(input, input / arg)
  {
    ModulusIsPower();
    XorBelow(input, input / arg, 24);
  }

  /** Whether the first multiplication by 64 fits in a `u64`: the number is
      below 2^58. */
  predicate Fits(x: nat)
  {
    x < 0x400_0000_0000_0000
  }

  /** One evolution of a secret, as the body of the inner loop computes it. */
  function Next(x: nat): (r: nat)
    requires Fits(x)
    ensures r < MODULUS
  {
    var a := MultiplyStep(x, 64);
    var b := DivideStep(a, 32);
    MultiplyStep(b, 2048)
  }

  /** The secret after `n` evolutions. */
  function Evolve(x: nat, n: nat): (r: nat)
    requires Fits(x)
    ensures n == 0 ==> r == x
    ensures n > 0 ==> r < MODULUS
  {
    if n == 0 then x else Next(Evolve(x, n - 1))
  }

  /** Evolving `m + n` times is evolving `m` times and then `n` more. */
  lemma {:induction false} EvolveAdd(x: nat, m: nat, n: nat)
    requires Fits(x)
    ensures Fits(Evolve(x, m)) && Evolve(x, m + n) == Evolve(Evolve(x, m), n)
  {
    if n > 0 {
      EvolveAdd(x, m, n - 1);
      assert Evolve(x, m + n) == Next(Evolve(x, m + n - 1));
    }
  }

  /** Every evolution only depends on the low 24 bits of the starting secret. */
  lemma EvolveLowBits(x: nat, n: nat)
    requires Fits(x) && n > 0
    ensures Evolve(x, n) == Evolve(x % MODULUS, n)
  {
    EvolveAdd(x, 1, n - 1);
    EvolveAdd(x % MODULUS, 1, n - 1);
    MultiplyStepLowBits(x, 64);
  }

  /** Sum of every number's secret after 2000 evolutions. */
  function SecretSum(numbers: seq<nat>): nat
    requires forall i :: 0 <= i < |numbers| ==> Fits(numbers[i])
  {
    if numbers == [] then 0
    else SecretSum(numbers[..|numbers| - 1]) + Evolve(numbers[|numbers| - 1], 2000)
  }

  /** Each buyer contributes less than 2^24. */
  lemma {:induction false} SecretSumBound(numbers: seq<nat>)
    requires forall i :: 0 <= i < |numbers| ==> Fits(numbers[i])
    ensures SecretSum(numbers) <= |numbers| * (MODULUS - 1)
  {
    if numbers != [] {
      SecretSumBound(numbers[..|numbers| - 1]);
    }
  }

  lemma SecretSumStep(numbers: seq<nat>, k: nat)
    requires k < |numbers| && forall i :: 0 <= i <= k ==> Fits(numbers[i])
    ensures SecretSum(numbers[..k + 1]) == SecretSum(numbers[..k]) + Evolve(numbers[k], 2000)
  {
    assert numbers[..k + 1][..k] == numbers[..k];
  }

  /** The starting secrets of the input: one `u64` per non-blank trimmed line. */
  function ParseNumbers(lines: seq<string>): Result<seq<nat>>
  {
    ParseUnsignedAll(NonBlankLines(lines), U64_LIMIT)
  }

  /** The inner loop of `do_it`: the three steps applied 2000 times. */
  method Evolve2000(number: nat) returns (current: nat)
    requires Fits(number)
    ensures current == Evolve(number, 2000)
  {
    current := number;
    for n := 0 to 2000
      invariant current == Evolve(number, n)
    {
      var next := MultiplyStep(current, 64);
      next := DivideStep(next, 32);
      next := MultiplyStep(next, 2048);
      current := next;
    }
  }

  /** The evolution loop of `do_it` over the parsed numbers: each number
      evolved 2000 times and added up, or the overflow panic of the first
      number too large to multiply by 64. */
  method SumSecrets(input: seq<nat>) returns (r: Result<nat>)
    ensures r.Ok? <==> forall i :: 0 <= i < |input| ==> Fits(input[i])
    ensures r.Ok? ==> r.value == SecretSum(input)
  {
    var result := 0;
    for k := 0 to |input|
      invariant forall i :: 0 <= i < k ==> Fits(input[i])
      invariant result == SecretSum(input[..k])
    {
      var number := input[k];
      if !Fits(number) {
        return Err("attempt to multiply with overflow");
      }
      var current := Evolve2000(number);
      SecretSumStep(input, k);
      result := result + current;
    }
    assert input[..|input|] == input;
    return Ok(result);
  }

  /** `do_it`: parse every line, then evolve each number 2000 times and sum. */
  method Solve(lines: seq<string>) returns (r: Result<nat>)
    ensures r.Ok? <==> (ParseNumbers(lines).Ok? &&
      forall i :: 0 <= i < |ParseNumbers(lines).value| ==> Fits(ParseNumbers(lines).value[i]))
    ensures r.Ok? ==> r.value == SecretSum(ParseNumbers(lines).value)
  {
    var parsed := ParseNumbers(lines);
    if parsed.Err? {
      return Err(parsed.msg);
    }
    r := SumSecrets(parsed.value);
  }
}
