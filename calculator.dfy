/** The n-ary arithmetic tool `cal` of tutor_agent/tools/calculator.py:
    input validation, case-insensitive dispatch on the operation name and the
    folds over the list of numbers. Input and operation errors are returned
    as error strings; an exception raised by `**` escapes `cal`. */
module Calculator {
  import opened Text

  /** One element of the argument list: either something `float(...)` accepts,
      with the real it denotes, or something it rejects. */
  datatype Token = Number(value: real) | Malformed(text: string)

  /** What `cal` returns: a number, or an error string. */
  datatype Reply = Value(result: real) | Error(message: string)

  const NoNumbers := "Error: No numbers provided"
  const NotNumbers := "Error: All arguments must be numbers"
  const DivideArity := "Error: Division requires at least 2 numbers"
  const DivideByZero := "Error: Division by zero"
  const PowerArity := "Error: Power operation requires exactly 2 numbers (base, exponent)"

  /** The operation names `cal` dispatches on (after lower-casing). */
  const Operations: set<string> := {"add", "subtract", "multiply", "divide", "power", "average", "max", "min"}

  function UnknownOperation(op: string): string {
    "Error: Unknown operation '" + op + "'"
  }

  predicate AllNumbers(tokens: seq<Token>) {
    forall i :: 0 <= i < |tokens| ==> tokens[i].Number?
  }

  /** `[float(num) for num in numbers]` once every element parses. */
  function Values(tokens: seq<Token>): (xs: seq<real>)
    requires AllNumbers(tokens)
    ensures |xs| == |tokens|
    ensures forall i :: 0 <= i < |tokens| ==> xs[i] == tokens[i].value
  {
    seq(|tokens|, i requires 0 <= i < |tokens| => tokens[i].value)
  }

  // ---------------------------------------------------------------------
  // Reference definitions of the folds

  /** `sum(xs)`: added left to right, starting from 0. */
  function Sum(xs: seq<real>): real {
    if xs == [] then 0.0 else Sum(xs[..|xs| - 1]) + xs[|xs| - 1]
  }

  /** The product left to right, starting from 1. */
  function Product(xs: seq<real>): real {
    if xs == [] then 1.0 else Product(xs[..|xs| - 1]) * xs[|xs| - 1]
  }

  predicate NoZero(ds: seq<real>) {
    forall j :: 0 <= j < |ds| ==> ds[j] != 0.0
  }

  /** `x` divided in turn by each element of `ds`. */
  function Quotient(x: real, ds: seq<real>): real
    requires NoZero(ds)
  {
    if ds == [] then x else Quotient(x, ds[..|ds| - 1]) / ds[|ds| - 1]
  }

  /** `max(xs)`: an element of `xs` that no element exceeds. */
  function Max(xs: seq<real>): (m: real)
    requires |xs| > 0
    ensures m in xs
    ensures forall i :: 0 <= i < |xs| ==> xs[i] <= m
  {
    if |xs| == 1 then xs[0]
    else
      var rest := Max(xs[1..]);
      assert forall i :: 1 <= i < |xs| ==> xs[i] == xs[1..][i - 1];
      if xs[0] >= rest then xs[0] else rest
  }

  /** `min(xs)`: an element of `xs` that exceeds no element. */
  function Min(xs: seq<real>): (m: real)
    requires |xs| > 0
    ensures m in xs
    ensures forall i :: 0 <= i < |xs| ==> m <= xs[i]
  {
    if |xs| == 1 then xs[0]
    else
      var rest := Min(xs[1..]);
      assert forall i :: 1 <= i < |xs| ==> xs[i] == xs[1..][i - 1];
      if xs[0] <= rest then xs[0] else rest
  }

  /** `sum(numbers) / len(numbers)` */
  function Average(xs: seq<real>): real
    requires |xs| > 0
  {
    Sum(xs) / (|xs| as real)
  }

  // ---------------------------------------------------------------------
  // The specification of `cal`

  /** What `cal(operation, numbers)` returns. Exponentiation with a real
      exponent is the parameter `pow`. */
  function Evaluate(operation: string, numbers: seq<Token>, pow: (real, real) -> real): (r: Reply)
    ensures numbers == [] ==> r == Error(NoNumbers)
    ensures numbers != [] && !AllNumbers(numbers) ==> r == Error(NotNumbers)
    ensures r.Error? <==>
      || numbers == []
      || !AllNumbers(numbers)
      || Lower(operation) !in Operations
      || (Lower(operation) == "divide" && (|numbers| < 2 || !NoZero(Values(numbers)[1..])))
      || (Lower(operation) == "power" && |numbers| != 2)
    ensures numbers != [] && AllNumbers(numbers) && Lower(operation) !in Operations ==>
      r == Error(UnknownOperation(Lower(operation)))
    ensures numbers != [] && AllNumbers(numbers) && Lower(operation) == "divide" && |numbers| < 2 ==>
      r == Error(DivideArity)
    ensures numbers != [] && AllNumbers(numbers) && Lower(operation) == "divide" && |numbers| >= 2 && !NoZero(Values(numbers)[1..]) ==>
      r == Error(DivideByZero)
    ensures numbers != [] && AllNumbers(numbers) && Lower(operation) == "power" && |numbers| != 2 ==>
      r == Error(PowerArity)
  {
    if numbers == [] then Error(NoNumbers)
    else if !AllNumbers(numbers) then Error(NotNumbers)
    else
      var xs := Values(numbers);
      var op := Lower(operation);
      if op == "add" then Value(Sum(xs))
      else if op == "subtract" then Value(xs[0] - Sum(xs[1..]))
      else if op == "multiply" then Value(Product(xs))
      else if op == "divide" then
        if |xs| < 2 then Error(DivideArity)
        else if !NoZero(xs[1..]) then Error(DivideByZero)
        else Value(Quotient(xs[0], xs[1..]))
      else if op == "power" then
        if |xs| != 2 then Error(PowerArity) else Value(pow(xs[0], xs[1]))
      else if op == "average" then Value(Average(xs))
      else if op == "max" then Value(Max(xs))
      else if op == "min" then Value(Min(xs))
      else Error(UnknownOperation(op))
  }

  // ---------------------------------------------------------------------
  // The implementation: the loops of calculator.py

  /** `result = numbers[0]; for num in numbers[1:]: result -= num` */
  method SubtractAll(xs: seq<real>) returns (result: real)
    requires |xs| > 0
    ensures result == xs[0] - Sum(xs[1..])
  {
    result := xs[0];
    var i := 1;
    while i < |xs|
      invariant 1 <= i <= |xs|
      invariant result == xs[0] - Sum(xs[1..i])
    {
      assert xs[1..i + 1][..i - 1] == xs[1..i];
      result := result - xs[i];
      i := i + 1;
    }
    assert xs[1..i] == xs[1..];
  }

  /** `result = 1; for num in numbers: result *= num` */
  method MultiplyAll(xs: seq<real>) returns (result: real)
    ensures result == Product(xs)
  {
    result := 1.0;
    var i := 0;
    while i < |xs|
      invariant 0 <= i <= |xs|
      invariant result == Product(xs[..i])
    {
      assert xs[..i + 1][..i] == xs[..i];
      result := result * xs[i];
      i := i + 1;
    }
    assert xs[..i] == xs;
  }

  /** The division loop: stops with the division-by-zero error at the first
      zero divisor, before any further division. */
  method DivideAll(xs: seq<real>) returns (r: Reply)
    requires |xs| >= 2
    ensures NoZero(xs[1..]) ==> r == Value(Quotient(xs[0], xs[1..]))
    ensures !NoZero(xs[1..]) ==> r == Error(DivideByZero)
  {
    var result := xs[0];
    var i := 1;
    while i < |xs|
      invariant 1 <= i <= |xs|
      invariant NoZero(xs[1..i])
      invariant result == Quotient(xs[0], xs[1..i])
    {
      if xs[i] == 0.0 {
        assert xs[1..][i - 1] == 0.0;
        return Error(DivideByZero);
      }
      assert xs[1..i + 1][..i - 1] == xs[1..i];
      result := result / xs[i];
      i := i + 1;
    }
    assert xs[1..i] == xs[1..];
    r := Value(result);
  }

  /** `cal(operation, numbers)` */
  method Cal(operation: string, numbers: seq<Token>, pow: (real, real) -> real) returns (r: Reply)
    ensures r == Evaluate(operation, numbers, pow)
  {
    if numbers == [] {
      return Error(NoNumbers);
    }
    if !AllNumbers(numbers) {
      return Error(NotNumbers);
    }
    var xs := Values(numbers);
    var op := Lower(operation);
    if op == "add" {
      r := Value(Sum(xs));
    } else if op == "subtract" {
      var result := SubtractAll(xs);
      r := Value(result);
    } else if op == "multiply" {
      var result := MultiplyAll(xs);
      r := Value(result);
    } else if op == "divide" {
      if |xs| < 2 {
        r := Error(DivideArity);
      } else {
        r := DivideAll(xs);
      }
    } else if op == "power" {
      if |xs| != 2 {
        r := Error(PowerArity);
      } else {
        r := Value(pow(xs[0], xs[1]));
      }
    } else if op == "average" {
      r := Value(Average(xs));
    } else if op == "max" {
      r := Value(Max(xs));
    } else if op == "min" {
      r := Value(Min(xs));
    } else {
      r := Error(UnknownOperation(op));
    }
  }

  // ---------------------------------------------------------------------
  // Properties

  /** The operation name is matched after lower-casing, so two names that
      agree up to letter case mean the same operation. */
  lemma OperationCaseInsensitive(a: string, b: string, numbers: seq<Token>, pow: (real, real) -> real)
    requires Lower(a) == Lower(b)
    ensures Evaluate(a, numbers, pow) == Evaluate(b, numbers, pow)
  {
  }

  /** An empty list is reported before the operation is looked at, even for an unknown operation. */
  lemma EmptyFirst(operation: string, pow: (real, real) -> real)
    ensures Evaluate(operation, [], pow) == Error(NoNumbers)
  {
  }

  lemma {:induction false} SumConcat(a: seq<real>, b: seq<real>)
    ensures Sum(a + b) == Sum(a) + Sum(b)
    decreases |b|
  {
    if b != [] {
      assert (a + b)[..|a + b| - 1] == a + b[..|b| - 1];
      SumConcat(a, b[..|b| - 1]);
    } else {
      assert a + b == a;
    }
  }

  lemma {:induction false} ProductConcat(a: seq<real>, b: seq<real>)
    ensures Product(a + b) == Product(a) * Product(b)
    decreases |b|
  {
    if b != [] {
      assert (a + b)[..|a + b| - 1] == a + b[..|b| - 1];
      ProductConcat(a, b[..|b| - 1]);
    } else {
      assert a + b == a;
    }
  }

  /** Taking one element out of a list. */
  lemma MultisetRemove<T>(s: seq<T>, i: nat)
    requires i < |s|
    ensures multiset(s[..i] + s[i + 1..]) == multiset(s) - multiset{s[i]}
    ensures multiset(s[..|s| - 1]) == multiset(s) - multiset{s[|s| - 1]}
  {
    assert s == s[..i] + [s[i]] + s[i + 1..];
    assert s == s[..|s| - 1] + [s[|s| - 1]];
  }

  lemma {:induction false} SumRemove(s: seq<real>, i: nat)
    requires i < |s|
    ensures Sum(s) == Sum(s[..i] + s[i + 1..]) + s[i]
    decreases |s|
  {
    var init, last := s[..|s| - 1], s[|s| - 1];
    if i == |s| - 1 {
      assert s[..i] + s[i + 1..] == init;
    } else {
      SumRemove(init, i);
      var rest := init[..i] + init[i + 1..];
      assert s[..i] + s[i + 1..] == rest + [last];
      assert (rest + [last])[..|rest|] == rest;
    }
  }

  /** A permutation of a non-empty list holds its last element somewhere;
      taking it out of both leaves permutations of each other. */
  lemma PickLast(a: seq<real>, b: seq<real>) returns (i: nat)
    requires a != [] && multiset(a) == multiset(b)
    ensures i < |b| && b[i] == a[|a| - 1]
    ensures multiset(a[..|a| - 1]) == multiset(b[..i] + b[i + 1..])
  {
    var x := a[|a| - 1];
    assert a == a[..|a| - 1] + [x];
    assert x in multiset(b);
    i :| 0 <= i < |b| && b[i] == x;
    MultisetRemove(b, i);
  }

  lemma {:induction false} ProductRemove(s: seq<real>, i: nat)
    requires i < |s|
    ensures Product(s) == Product(s[..i] + s[i + 1..]) * s[i]
    decreases |s|
  {
    var init, last := s[..|s| - 1], s[|s| - 1];
    if i == |s| - 1 {
      assert s[..i] + s[i + 1..] == init;
    } else {
      ProductRemove(init, i);
      var rest := init[..i] + init[i + 1..];
      assert s[..i] + s[i + 1..] == rest + [last];
      assert (rest + [last])[..|rest|] == rest;
      Rearrange(Product(rest), s[i], last);
    }
  }

  lemma Rearrange(a: real, y: real, b: real)
    ensures (a * y) * b == (a * b) * y
  {
  }

  /** `add` does not depend on the order of the numbers. */
  lemma {:induction false} SumPermutation(a: seq<real>, b: seq<real>)
    requires multiset(a) == multiset(b)
    ensures Sum(a) == Sum(b)
    decreases |a|
  {
    if a != [] {
      var i := PickLast(a, b);
      SumPermutation(a[..|a| - 1], b[..i] + b[i + 1..]);
      SumRemove(b, i);
    } else {
      assert |multiset(b)| == 0;
    }
  }

  /** `multiply` does not depend on the order of the numbers. */
  lemma {:induction false} ProductPermutation(a: seq<real>, b: seq<real>)
    requires multiset(a) == multiset(b)
    ensures Product(a) == Product(b)
    decreases |a|
  {
    if a != [] {
      var i := PickLast(a, b);
      ProductPermutation(a[..|a| - 1], b[..i] + b[i + 1..]);
      ProductRemove(b, i);
    } else {
      assert |multiset(b)| == 0;
    }
  }

  /** The argument list holding exactly the numbers `xs`. */
  function Tokens(xs: seq<real>): (ts: seq<Token>)
    ensures AllNumbers(ts) && Values(ts) == xs
  {
    seq(|xs|, i requires 0 <= i < |xs| => Number(xs[i]))
  }

  /** `cal("add", ...)` and `cal("multiply", ...)` give the same result for
      any reordering of the numbers. */
  lemma AddMultiplyOrderFree(xs: seq<real>, ys: seq<real>, pow: (real, real) -> real)
    requires multiset(xs) == multiset(ys)
    ensures Evaluate("add", Tokens(xs), pow) == Evaluate("add", Tokens(ys), pow)
    ensures Evaluate("multiply", Tokens(xs), pow) == Evaluate("multiply", Tokens(ys), pow)
  {
    assert Lower("add") == "add";
    assert Lower("multiply") == "multiply";
    if xs == [] {
      assert |multiset(ys)| == 0;
    } else {
      assert ys != [];
      SumPermutation(xs, ys);
      ProductPermutation(xs, ys);
    }
  }

  /** `divide` inverts `multiply`: the quotient times the product of the
      divisors gives back the first number. */
  lemma {:induction false} QuotientTimesDivisors(x: real, ds: seq<real>)
    requires NoZero(ds)
    ensures Product(ds) != 0.0
    ensures Quotient(x, ds) * Product(ds) == x
    decreases |ds|
  {
    if ds != [] {
      var init, d := ds[..|ds| - 1], ds[|ds| - 1];
      QuotientTimesDivisors(x, init);
      var q, p := Quotient(x, init), Product(init);
      assert Quotient(x, ds) == q / d;
      assert Product(ds) == p * d;
      calc {
        (q / d) * (p * d);
        q * p * (d / d);
        x;
      }
    }
  }

  /** A zero anywhere after the first number makes `divide` fail, whatever
      came before it: `divide([a, 0])` never yields a number. */
  lemma DivideByZeroFails(operation: string, numbers: seq<Token>, pow: (real, real) -> real, j: nat)
    requires Lower(operation) == "divide"
    requires AllNumbers(numbers)
    requires 1 <= j < |numbers| && numbers[j].value == 0.0
    ensures Evaluate(operation, numbers, pow) == Error(DivideByZero)
  {
    assert Values(numbers)[1..][j - 1] == 0.0;
  }

  /** The sum is the first number plus the sum of the others. */
  lemma SumFirst(xs: seq<real>)
    requires |xs| > 0
    ensures Sum(xs) == xs[0] + Sum(xs[1..])
  {
    SumConcat([xs[0]], xs[1..]);
    assert [xs[0]] + xs[1..] == xs;
    assert [xs[0]][..0] == [];
  }

  /** On a list of numbers `subtract` succeeds; adding the other numbers
      back to its result gives the first number, and its result plus that
      of `add` is twice the first number. */
  lemma SubtractAddsBack(operation: string, numbers: seq<Token>, pow: (real, real) -> real)
    requires numbers != [] && AllNumbers(numbers) && Lower(operation) == "subtract"
    ensures var r := Evaluate(operation, numbers, pow);
      && r.Value?
      && r.result + Sum(Values(numbers)[1..]) == Values(numbers)[0]
      && r.result + Evaluate("add", numbers, pow).result == 2.0 * Values(numbers)[0]
  {
    assert Lower("add") == "add";
    SumFirst(Values(numbers));
  }

  /** Every element at least `c` makes the sum at least `|xs|` times `c`; dually for at most. */
  lemma {:induction false} SumBounds(xs: seq<real>, lo: real, hi: real)
    requires forall i :: 0 <= i < |xs| ==> lo <= xs[i] <= hi
    ensures (|xs| as real) * lo <= Sum(xs) <= (|xs| as real) * hi
    decreases |xs|
  {
    if xs != [] {
      var k := |xs| - 1;
      var init := xs[..k];
      SumBounds(init, lo, hi);
      assert (k as real) * lo + lo == (|xs| as real) * lo;
      assert (k as real) * hi + hi == (|xs| as real) * hi;
    }
  }

  lemma DivisionBounds(s: real, n: real, lo: real, hi: real)
    requires n > 0.0 && n * lo <= s <= n * hi
    ensures lo <= s / n <= hi
    ensures (s / n) * n == s
  {
  }

  lemma AverageFromSumBounds(xs: seq<real>, lo: real, hi: real)
    requires |xs| > 0
    requires (|xs| as real) * lo <= Sum(xs) <= (|xs| as real) * hi
    ensures lo <= Average(xs) <= hi
    ensures Average(xs) * (|xs| as real) == Sum(xs)
  {
    DivisionBounds(Sum(xs), |xs| as real, lo, hi);
  }

  /** `average` lies between `min` and `max`. */
  lemma AverageBetween(xs: seq<real>)
    requires |xs| > 0
    ensures Min(xs) <= Average(xs) <= Max(xs)
  {
    var lo, hi := Min(xs), Max(xs);
    SumBounds(xs, lo, hi);
    AverageFromSumBounds(xs, lo, hi);
  }
}
