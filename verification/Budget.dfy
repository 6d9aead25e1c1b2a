/** Spending a bounded number of tokens in order: the selection loop and the contradiction loop
    of the context kernel are both this loop. Token counts are `u32`; a release build wraps. */
module Budget {
  import opened Prelude

  const U32: nat := 0x1_0000_0000

  function Add32(x: nat, y: nat): nat { (x + y) % U32 }

  /** What 32 bits show of a number. */
  ghost predicate Wraps(shown: nat, number: nat)
  {
    shown < U32 && exists k: nat :: number == shown + Times(k)
  }

  function Times(k: nat): nat { k * U32 }

  lemma ModWraps(number: nat)
    ensures Wraps(number % U32, number)
  {
    assert number == number % U32 + Times(number / U32);
  }

  datatype TokenBudget = TokenBudget(normal: nat, conflictsReserved: nat, emergencyOverrun: nat)
  {
    predicate Valid() { normal < U32 && conflictsReserved < U32 && emergencyOverrun < U32 }

    /** `saturating_add`. */
    function ConflictCap(): nat
    {
      if conflictsReserved + emergencyOverrun < U32 then conflictsReserved + emergencyOverrun else U32 - 1
    }
  }

  /** 85, 10 and 5 percent, each rounded down. */
  function DefaultFor(maxTokens: nat): TokenBudget
  {
    TokenBudget(maxTokens * 85 / 100, maxTokens * 10 / 100, maxTokens * 5 / 100)
  }

  /** Each share is the largest whole number of tokens within its percentage. */
  lemma DefaultExact(maxTokens: nat)
    ensures var b := DefaultFor(maxTokens);
            && 100 * b.normal <= 85 * maxTokens < 100 * (b.normal + 1)
            && 100 * b.conflictsReserved <= 10 * maxTokens < 100 * (b.conflictsReserved + 1)
            && 100 * b.emergencyOverrun <= 5 * maxTokens < 100 * (b.emergencyOverrun + 1)
  {
  }

  /** The conflict cap is both reserves together, as far as 32 bits reach. */
  lemma CapExact(b: TokenBudget)
    requires b.Valid()
    ensures b.ConflictCap() <= b.conflictsReserved + b.emergencyOverrun && b.ConflictCap() < 4294967296
    ensures b.ConflictCap() == b.conflictsReserved + b.emergencyOverrun || b.ConflictCap() == 4294967295
  {
  }

  lemma DefaultWithinMax(maxTokens: nat)
    requires maxTokens < U32
    ensures var b := DefaultFor(maxTokens);
            b.Valid() && b.normal + b.ConflictCap() <= maxTokens
  {
  }

  /** What the loop has decided so far; `taken` has one verdict per element. */
  datatype Basket<T> = Basket(selected: seq<T>, dropped: seq<T>, taken: seq<bool>, total: nat)

  function Decide<T>(b: Basket<T>, x: T, take: bool, total: nat): Basket<T>
  {
    if take then Basket(b.selected + [x], b.dropped, b.taken + [true], total)
    else Basket(b.selected, b.dropped + [x], b.taken + [false], b.total)
  }

  /** The loop as the code runs it, with wrapping addition. */
  function Pick<T>(xs: seq<T>, cost: T -> nat, cap: nat): Basket<T>
  {
    if xs == [] then Basket([], [], [], 0)
    else
      var b := Pick(xs[..|xs| - 1], cost, cap);
      var x := xs[|xs| - 1];
      var next := Add32(b.total, cost(x));
      Decide(b, x, next <= cap, next)
  }

  /** The loop as it is meant: take an element, in order, if it fits in what is left. */
  function Ideal<T>(xs: seq<T>, cost: T -> nat, cap: nat): Basket<T>
  {
    if xs == [] then Basket([], [], [], 0)
    else
      var b := Ideal(xs[..|xs| - 1], cost, cap);
      var x := xs[|xs| - 1];
      Decide(b, x, b.total + cost(x) <= cap, b.total + cost(x))
  }

  function Sum<T>(xs: seq<T>, cost: T -> nat): nat
  {
    if xs == [] then 0 else Sum(xs[..|xs| - 1], cost) + cost(xs[|xs| - 1])
  }

  lemma {:induction false} SumAppend<T>(a: seq<T>, b: seq<T>, cost: T -> nat)
    ensures Sum(a + b, cost) == Sum(a, cost) + Sum(b, cost)
    decreases |b|
  {
    if b == [] {
      assert a + b == a;
    } else {
      assert (a + b)[..|a + b| - 1] == a + b[..|b| - 1];
      SumAppend(a, b[..|b| - 1], cost);
    }
  }

  /** At no element's turn does the running total overflow. */
  predicate NoOverflow<T>(xs: seq<T>, cost: T -> nat, cap: nat)
  {
    xs == [] ||
    (NoOverflow(xs[..|xs| - 1], cost, cap) && Ideal(xs[..|xs| - 1], cost, cap).total + cost(xs[|xs| - 1]) < U32)
  }

  /** The code does what is meant, verdict by verdict, exactly when nothing overflows: a sum that
      wraps is always small enough to be let in. */
  lemma {:induction false} PickIsIdealIffNoOverflow<T>(xs: seq<T>, cost: T -> nat, cap: nat)
    requires cap < U32 && forall x | x in xs :: cost(x) < U32
    ensures Pick(xs, cost, cap).taken == Ideal(xs, cost, cap).taken <==> NoOverflow(xs, cost, cap)
    ensures NoOverflow(xs, cost, cap) ==> Pick(xs, cost, cap) == Ideal(xs, cost, cap)
  {
    if xs != [] {
      var init, x := xs[..|xs| - 1], xs[|xs| - 1];
      PickIsIdealIffNoOverflow(init, cost, cap);
      IdealSpends(init, cost, cap);
      VerdictPerElement(init, cost, cap);
      StepIsIdealIff(Pick(init, cost, cap), Ideal(init, cost, cap), x, cost(x), cap, NoOverflow(init, cost, cap));
    }
  }

  lemma StepIsIdealIff<T>(p: Basket<T>, q: Basket<T>, x: T, c: nat, cap: nat, clean: bool)
    requires cap < U32 && c < U32 && q.total <= cap && |p.taken| == |q.taken|
    requires clean <==> p.taken == q.taken
    requires clean ==> p == q
    ensures var p' := Decide(p, x, Add32(p.total, c) <= cap, Add32(p.total, c));
            var q' := Decide(q, x, q.total + c <= cap, q.total + c);
            && (p'.taken == q'.taken <==> clean && q.total + c < U32)
            && (clean && q.total + c < U32 ==> p' == q')
  {
    Add32Cases(q.total, c);
    var p' := Decide(p, x, Add32(p.total, c) <= cap, Add32(p.total, c));
    var q' := Decide(q, x, q.total + c <= cap, q.total + c);
    assert p'.taken[..|p.taken|] == p.taken && q'.taken[..|p.taken|] == q.taken;
    assert p'.taken[|p.taken|] == (Add32(p.total, c) <= cap) && q'.taken[|p.taken|] == (q.total + c <= cap);
  }

  lemma Add32Cases(x: nat, y: nat)
    requires x < U32 && y < U32
    ensures Add32(x, y) == if x + y < U32 then x + y else x + y - U32
  {
  }

  lemma {:induction false} VerdictPerElement<T>(xs: seq<T>, cost: T -> nat, cap: nat)
    ensures |Pick(xs, cost, cap).taken| == |xs| && |Ideal(xs, cost, cap).taken| == |xs|
  {
    if xs != [] { VerdictPerElement(xs[..|xs| - 1], cost, cap); }
  }

  /** Nothing overflows if every single cost leaves room above the cap. */
  lemma {:induction false} SmallCostsNeverOverflow<T>(xs: seq<T>, cost: T -> nat, cap: nat)
    requires forall x | x in xs :: cap + cost(x) < U32
    ensures NoOverflow(xs, cost, cap)
  {
    if xs != [] {
      SmallCostsNeverOverflow(xs[..|xs| - 1], cost, cap);
      IdealSpends(xs[..|xs| - 1], cost, cap);
    }
  }

  /** What the code reports never exceeds the cap, and it is what the selection really costs
      exactly when nothing overflows; otherwise it is that cost modulo 2^32. */
  lemma {:induction false} ReportedTotal<T>(xs: seq<T>, cost: T -> nat, cap: nat)
    requires cap < U32 && forall x | x in xs :: cost(x) < U32
    ensures var p := Pick(xs, cost, cap);
            && p.total <= cap
            && p.total == Sum(p.selected, cost) % U32
            && (p.total == Sum(p.selected, cost) <==> NoOverflow(xs, cost, cap))
  {
    if xs != [] {
      var init, x := xs[..|xs| - 1], xs[|xs| - 1];
      ReportedTotal(init, cost, cap);
      IdealSpends(init, cost, cap);
      var clean, p, q := NoOverflow(init, cost, cap), Pick(init, cost, cap), Ideal(init, cost, cap);
      if clean { PickIsIdealIffNoOverflow(init, cost, cap); }
      TotalStep(p, x, cost, cap, clean, q.total);
    }
  }

  /** Every element is decided on, once. */
  lemma {:induction false} PickPartitions<T>(xs: seq<T>, cost: T -> nat, cap: nat)
    ensures multiset(Pick(xs, cost, cap).selected) + multiset(Pick(xs, cost, cap).dropped) == multiset(xs)
  {
    if xs != [] {
      var init, x := xs[..|xs| - 1], xs[|xs| - 1];
      PickPartitions(init, cost, cap);
      MultisetPush(init, x);
      assert xs == init + [x];
      var b := Pick(init, cost, cap);
      DecidePartitions(b, x, Add32(b.total, cost(x)) <= cap, Add32(b.total, cost(x)));
    }
  }

  lemma DecidePartitions<T>(b: Basket<T>, x: T, take: bool, total: nat)
    ensures var b' := Decide(b, x, take, total);
            multiset(b'.selected) + multiset(b'.dropped) == multiset(b.selected) + multiset(b.dropped) + multiset{x}
  {
    MultisetPush(b.selected, x);
    MultisetPush(b.dropped, x);
  }

  lemma TotalStep<T>(p: Basket<T>, x: T, cost: T -> nat, cap: nat, clean: bool, ideal: nat)
    requires cap < U32 && cost(x) < U32 && p.total <= cap && ideal <= cap
    requires p.total == Sum(p.selected, cost) % U32
    requires clean <==> p.total == Sum(p.selected, cost)
    requires clean ==> p.total == ideal
    ensures var next := Decide(p, x, Add32(p.total, cost(x)) <= cap, Add32(p.total, cost(x)));
            && next.total <= cap
            && next.total == Sum(next.selected, cost) % U32
            && (next.total == Sum(next.selected, cost) <==> clean && ideal + cost(x) < U32)
  {
    var sum, c := Sum(p.selected, cost), cost(x);
    SumPush(p.selected, x, cost);
    Add32Cases(p.total, c);
    ModStep(sum, c);
    if sum < U32 { assert sum % U32 == sum; }
  }

  lemma SumPush<T>(xs: seq<T>, x: T, cost: T -> nat)
    ensures Sum(xs + [x], cost) == Sum(xs, cost) + cost(x)
  {
    assert (xs + [x])[..|xs|] == xs;
  }

  lemma ModStep(sum: nat, c: nat)
    ensures Add32(sum % U32, c) == (sum + c) % U32
  {
    assert sum == U32 * (sum / U32) + sum % U32;
    ModShift(sum % U32 + c, sum / U32);
  }

  lemma {:induction false} ModShift(x: nat, k: nat)
    ensures (x + U32 * k) % U32 == x % U32
  {
    if k > 0 { ModShift(x, k - 1); }
  }

  /** A sum does not depend on the order. */
  lemma {:induction false} SumPermutation<T>(a: seq<T>, b: seq<T>, cost: T -> nat)
    requires multiset(a) == multiset(b)
    ensures Sum(a, cost) == Sum(b, cost)
    decreases |a|
  {
    if a == [] {
      assert |multiset(b)| == |b|;
    } else {
      var init, x := a[..|a| - 1], a[|a| - 1];
      assert a == init + [x];
      MultisetPush(init, x);
      CountsElements(a, x);
      CountsElements(b, x);
      var k :| 0 <= k < |b| && b[k] == x;
      var rest := b[..k] + b[k + 1..];
      TakeOut(b, k, cost);
      assert multiset(init) == multiset(a) - multiset{x};
      SumPermutation(init, rest, cost);
    }
  }

  lemma TakeOut<T>(b: seq<T>, k: nat, cost: T -> nat)
    requires k < |b|
    ensures var rest := b[..k] + b[k + 1..];
            multiset(rest) == multiset(b) - multiset{b[k]} && Sum(b, cost) == Sum(rest, cost) + cost(b[k])
  {
    assert b == (b[..k] + [b[k]]) + b[k + 1..];
    MultisetPush(b[..k], b[k]);
    SumAppend(b[..k], b[k + 1..], cost);
    SumPush(b[..k], b[k], cost);
    SumAppend(b[..k] + [b[k]], b[k + 1..], cost);
  }

  /** A single element can break the cap: 10 already spent, a cost of 2^32 - 5, a cap of 10. */
  lemma WrapBreaksCap()
    ensures var xs: seq<nat> := [10, U32 - 5];
            var p := Pick(xs, (x: nat) => x, 10);
            p.selected == xs && p.total == 5 && Sum(p.selected, (x: nat) => x) > 10
  {
    var xs: seq<nat>, one: seq<nat> := [10, U32 - 5], [10];
    assert xs[..1] == one && one[..0] == [];
    assert Pick(one, (x: nat) => x, 10) == Basket(one, [], [true], 10);
    assert Sum(one, (x: nat) => x) == 10;
  }

  /** Conservation and bound. */
  lemma {:induction false} IdealSpends<T>(xs: seq<T>, cost: T -> nat, cap: nat)
    ensures var b := Ideal(xs, cost, cap);
            && b.total == Sum(b.selected, cost) <= cap
            && multiset(b.selected) + multiset(b.dropped) == multiset(xs)
  {
    if xs != [] {
      var init, x := xs[..|xs| - 1], xs[|xs| - 1];
      IdealSpends(init, cost, cap);
      var b := Ideal(init, cost, cap);
      SumPush(b.selected, x, cost);
      DecidePartitions(b, x, b.total + cost(x) <= cap, b.total + cost(x));
      MultisetPush(init, x);
      assert xs == init + [x];
    }
  }

  lemma {:induction false} IdealGrows<T>(xs: seq<T>, cost: T -> nat, cap: nat, n: nat)
    requires n <= |xs|
    ensures Ideal(xs[..n], cost, cap).total <= Ideal(xs, cost, cap).total
    ensures Ideal(xs[..n], cost, cap).taken <= Ideal(xs, cost, cap).taken
    decreases |xs|
  {
    if n < |xs| {
      var init := xs[..|xs| - 1];
      IdealGrows(init, cost, cap, n);
      assert init[..n] == xs[..n];
    } else {
      assert xs[..n] == xs;
    }
  }

  /** Priority and maximality. An element is passed over only if what was taken BEFORE it leaves
      too little room, and then it does not fit in what is left at the end either. */
  lemma GreedyExact<T>(xs: seq<T>, cost: T -> nat, cap: nat, i: nat)
    requires i < |xs|
    ensures var b := Ideal(xs, cost, cap);
            && |b.taken| == |xs|
            && (b.taken[i] <==> Sum(Ideal(xs[..i], cost, cap).selected, cost) + cost(xs[i]) <= cap)
            && (!b.taken[i] ==> b.total + cost(xs[i]) > cap)
  {
    VerdictPerElement(xs, cost, cap);
    VerdictPerElement(xs[..i], cost, cap);
    IdealSpends(xs[..i], cost, cap);
    IdealGrows(xs, cost, cap, i);
    IdealGrows(xs, cost, cap, i + 1);
    assert xs[..i + 1][..i] == xs[..i];
    var step := Ideal(xs[..i + 1], cost, cap);
    assert step.taken[i] <==> Ideal(xs[..i], cost, cap).total + cost(xs[i]) <= cap;
  }

  /** The selection is the input with the passed-over elements left out: nothing is reordered. */
  lemma {:induction false} SelectedInOrder<T>(xs: seq<T>, cost: T -> nat, cap: nat)
    ensures Ideal(xs, cost, cap).selected == Chosen(xs, Ideal(xs, cost, cap).taken, true)
    ensures Ideal(xs, cost, cap).dropped == Chosen(xs, Ideal(xs, cost, cap).taken, false)
  {
    if xs != [] {
      var init := xs[..|xs| - 1];
      SelectedInOrder(init, cost, cap);
      VerdictPerElement(init, cost, cap);
      var taken := Ideal(xs, cost, cap).taken;
      assert taken[..|taken| - 1] == Ideal(init, cost, cap).taken;
    }
  }

  function Chosen<T>(xs: seq<T>, taken: seq<bool>, verdict: bool): seq<T>
  {
    if xs == [] || taken == [] then []
    else
      Chosen(xs[..|xs| - 1], taken[..|taken| - 1], verdict)
      + if taken[|taken| - 1] == verdict then [xs[|xs| - 1]] else []
  }

  /** If the cap covers everything, everything is taken. */
  lemma {:induction false} AllFit<T>(xs: seq<T>, cost: T -> nat, cap: nat)
    requires Sum(xs, cost) <= cap
    ensures Ideal(xs, cost, cap).selected == xs && Ideal(xs, cost, cap).total == Sum(xs, cost)
  {
    if xs != [] {
      AllFit(xs[..|xs| - 1], cost, cap);
      assert xs == xs[..|xs| - 1] + [xs[|xs| - 1]];
    }
  }

  lemma {:induction false} SumGrows<T>(xs: seq<T>, cost: T -> nat, n: nat)
    requires n <= |xs|
    ensures Sum(xs[..n], cost) <= Sum(xs, cost)
    decreases |xs|
  {
    if n < |xs| {
      SumGrows(xs[..|xs| - 1], cost, n);
      assert xs[..|xs| - 1][..n] == xs[..n];
    } else {
      assert xs[..n] == xs;
    }
  }

  ghost predicate PrefixesFit<T>(xs: seq<T>, cost: T -> nat, cap: nat)
  {
    forall n | 0 <= n <= |xs| :: Sum(xs[..n], cost) % U32 <= cap
  }

  lemma PrefixesFitInit<T>(xs: seq<T>, cost: T -> nat, cap: nat)
    requires xs != []
    ensures PrefixesFit(xs, cost, cap) <==>
              PrefixesFit(xs[..|xs| - 1], cost, cap) && Sum(xs, cost) % U32 <= cap
  {
    var init := xs[..|xs| - 1];
    assert xs[..|xs|] == xs;
    if PrefixesFit(xs, cost, cap) {
      forall n | 0 <= n <= |init| ensures Sum(init[..n], cost) % U32 <= cap { assert init[..n] == xs[..n]; }
    }
    if PrefixesFit(init, cost, cap) && Sum(xs, cost) % U32 <= cap {
      forall n | 0 <= n <= |xs| ensures Sum(xs[..n], cost) % U32 <= cap {
        if n < |xs| { assert init[..n] == xs[..n]; }
      }
    }
  }

  /** Everything is taken iff no prefix sum, modulo 2^32, exceeds the cap. */
  lemma {:induction false} AllPicked<T>(xs: seq<T>, cost: T -> nat, cap: nat)
    ensures Pick(xs, cost, cap).dropped == [] <==> PrefixesFit(xs, cost, cap)
    ensures Pick(xs, cost, cap).dropped == [] ==>
              Pick(xs, cost, cap).selected == xs && Pick(xs, cost, cap).total == Sum(xs, cost) % U32
  {
    if xs == [] {
      assert Sum(xs[..0], cost) == 0;
    } else {
      var init, x := xs[..|xs| - 1], xs[|xs| - 1];
      AllPicked(init, cost, cap);
      PrefixesFitInit(xs, cost, cap);
      DecideAll(init, Pick(init, cost, cap), x, cost, cap);
      assert xs == init + [x];
    }
  }

  lemma DecideAll<T>(init: seq<T>, b: Basket<T>, x: T, cost: T -> nat, cap: nat)
    requires b.dropped == [] ==> b.selected == init && b.total == Sum(init, cost) % U32
    ensures var next := Decide(b, x, Add32(b.total, cost(x)) <= cap, Add32(b.total, cost(x)));
            && (next.dropped == [] <==> b.dropped == [] && Sum(init + [x], cost) % U32 <= cap)
            && (next.dropped == [] ==> next.selected == init + [x] && next.total == Sum(init + [x], cost) % U32)
  {
    SumPush(init, x, cost);
    ModStep(Sum(init, cost), cost(x));
  }

  lemma AllPickedIff<T>(xs: seq<T>, cost: T -> nat, cap: nat)
    ensures multiset(Pick(xs, cost, cap).selected) == multiset(xs) <==> PrefixesFit(xs, cost, cap)
  {
    var p := Pick(xs, cost, cap);
    AllPicked(xs, cost, cap);
    PickPartitions(xs, cost, cap);
    assert |multiset(p.selected)| + |multiset(p.dropped)| == |multiset(xs)|;
    assert |multiset(p.dropped)| == |p.dropped|;
  }

  /** A cap that covers everything takes everything; and, short of overflow, only such a cap. */
  lemma CoveredIsPicked<T>(xs: seq<T>, cost: T -> nat, cap: nat)
    requires cap < U32
    ensures Sum(xs, cost) <= cap ==> PrefixesFit(xs, cost, cap)
    ensures NoOverflow(xs, cost, cap) && PrefixesFit(xs, cost, cap) ==> Sum(xs, cost) <= cap
  {
    if Sum(xs, cost) <= cap {
      forall n | 0 <= n <= |xs| ensures Sum(xs[..n], cost) % U32 <= cap {
        SumGrows(xs, cost, n);
        SmallMod(Sum(xs[..n], cost));
      }
    }
    if NoOverflow(xs, cost, cap) && PrefixesFit(xs, cost, cap) { CleanPrefixes(xs, cost, cap); }
  }

  lemma SmallMod(n: nat)
    ensures n < U32 ==> n % U32 == n
  {
  }

  lemma {:induction false} CleanPrefixes<T>(xs: seq<T>, cost: T -> nat, cap: nat)
    requires cap < U32 && NoOverflow(xs, cost, cap) && PrefixesFit(xs, cost, cap)
    ensures Sum(xs, cost) == Ideal(xs, cost, cap).total <= cap
  {
    if xs != [] {
      PrefixesFitInit(xs, cost, cap);
      CleanPrefixes(xs[..|xs| - 1], cost, cap);
      SmallMod(Sum(xs, cost));
    }
  }

  /** The selection loop. */
  method Spend<T>(xs: seq<T>, cost: T -> nat, cap: nat) returns (selected: seq<T>, dropped: seq<T>, total: nat)
    ensures var b := Pick(xs, cost, cap);
            selected == b.selected && dropped == b.dropped && total == b.total
  {
    selected, dropped, total := [], [], 0;
    for i := 0 to |xs|
      invariant var b := Pick(xs[..i], cost, cap);
                selected == b.selected && dropped == b.dropped && total == b.total
    {
      assert xs[..i + 1][..i] == xs[..i];
      if Add32(total, cost(xs[i])) <= cap {
        selected := selected + [xs[i]];
        total := Add32(total, cost(xs[i]));
      } else {
        dropped := dropped + [xs[i]];
      }
    }
    assert xs[..|xs|] == xs;
  }
}
