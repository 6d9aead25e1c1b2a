/** Offline Pareto selection of program candidates. */
module Pareto {
  import opened Prelude

  /** IEEE doubles as far as comparison goes: NaN compares false both ways. */
  datatype F64 = NaN | NegInf | Finite(r: real) | PosInf

  predicate Lt(a: F64, b: F64)
  {
    match (a, b)
    case (NaN, _) => false
    case (_, NaN) => false
    case (Finite(x), Finite(y)) => x < y
    case (NegInf, NegInf) => false
    case (NegInf, _) => true
    case (Finite(_), PosInf) => true
    case _ => false
  }

  predicate Le(a: F64, b: F64) { Lt(a, b) || (a == b && !a.NaN?) }

  datatype Candidate = Candidate(
    id: string, accuracy: F64, failureRate: F64, unsafeActions: nat, hallucinations: nat, latency: F64, tokens: nat)

  predicate BetterOrEqual(a: Candidate, b: Candidate)
  {
    && Le(b.accuracy, a.accuracy) && Le(a.latency, b.latency) && a.tokens <= b.tokens
    && a.unsafeActions <= b.unsafeActions && Le(a.failureRate, b.failureRate)
    && a.hallucinations <= b.hallucinations
  }

  predicate StrictlyBetter(a: Candidate, b: Candidate)
  {
    || Lt(b.accuracy, a.accuracy) || Lt(a.latency, b.latency) || a.tokens < b.tokens
    || a.unsafeActions < b.unsafeActions || Lt(a.failureRate, b.failureRate)
    || a.hallucinations < b.hallucinations
  }

  predicate Dominates(a: Candidate, b: Candidate) { BetterOrEqual(a, b) && StrictlyBetter(a, b) }

  predicate Dominated(cs: seq<Candidate>, i: nat)
    requires i < |cs|
  {
    exists j :: 0 <= j < |cs| && j != i && Dominates(cs[j], cs[i])
  }

  /** The indices selected among the first `n`, in input order. */
  ghost function Front(cs: seq<Candidate>, n: nat): (r: seq<nat>)
    requires n <= |cs|
    ensures forall k | 0 <= k < |r| :: r[k] < n
  {
    if n == 0 then [] else Front(cs, n - 1) + if Dominated(cs, n - 1) then [] else [n - 1]
  }

  /** The selection is exactly the undominated indices, each once, in input order. */
  lemma {:induction false} FrontExact(cs: seq<Candidate>, n: nat)
    requires n <= |cs|
    ensures var r := Front(cs, n);
            && (forall i: nat :: i in r <==> i < n && !Dominated(cs, i))
            && (forall k, l | 0 <= k < l < |r| :: r[k] < r[l])
  {
    if n > 0 {
      FrontExact(cs, n - 1);
    }
  }

  lemma IdsStep(cs: seq<Candidate>, i: nat)
    requires i < |cs|
    ensures Ids(cs, Front(cs, i + 1)) == Ids(cs, Front(cs, i)) + if Dominated(cs, i) then [] else [cs[i].id]
  {
  }

  function Ids(cs: seq<Candidate>, at: seq<nat>): seq<string>
    requires forall k | 0 <= k < |at| :: at[k] < |cs|
  {
    seq(|at|, k requires 0 <= k < |at| => cs[at[k]].id)
  }

  /** The inner scan, stopping at the first dominator. */
  method Beaten(cs: seq<Candidate>, i: nat) returns (dominated: bool)
    requires i < |cs|
    ensures dominated == Dominated(cs, i)
  {
    dominated := false;
    var j := 0;
    while j < |cs| && !dominated
      invariant 0 <= j <= |cs|
      invariant dominated ==> Dominated(cs, i)
      invariant !dominated ==> forall k | 0 <= k < j && k != i :: !Dominates(cs[k], cs[i])
    {
      if i != j && Dominates(cs[j], cs[i]) { dominated := true; }
      j := j + 1;
    }
  }

  method ParetoSelect(cs: seq<Candidate>) returns (result: seq<string>)
    ensures result == Ids(cs, Front(cs, |cs|))
  {
    result := [];
    var i := 0;
    while i < |cs|
      invariant 0 <= i <= |cs|
      invariant result == Ids(cs, Front(cs, i))
    {
      var dominated := Beaten(cs, i);
      IdsStep(cs, i);
      if !dominated { result := result + [cs[i].id]; }
      i := i + 1;
    }
  }

  /** The selected ids: one for each undominated candidate and no other, in input order. */
  lemma SelectedAreUndominated(cs: seq<Candidate>)
    ensures var front := Front(cs, |cs|);
            && |Ids(cs, front)| == |front|
            && (forall k | 0 <= k < |front| :: Ids(cs, front)[k] == cs[front[k]].id)
            && (forall id :: id in Ids(cs, front) <==> exists i :: 0 <= i < |cs| && !Dominated(cs, i) && cs[i].id == id)
  {
    var front := Front(cs, |cs|);
    FrontExact(cs, |cs|);
    forall id ensures id in Ids(cs, front) <==> exists i :: 0 <= i < |cs| && !Dominated(cs, i) && cs[i].id == id {
      if id in Ids(cs, front) {
        var k :| 0 <= k < |front| && Ids(cs, front)[k] == id;
        assert front[k] in front;
      }
      if i :| 0 <= i < |cs| && !Dominated(cs, i) && cs[i].id == id {
        assert i in front;
        var k :| 0 <= k < |front| && front[k] == i;
        assert Ids(cs, front)[k] == id;
      }
    }
  }

  // ---- which way is better -------------------------------------------------------------

  /** Comparison is that of the numbers, between the infinities; NaN compares with nothing. */
  lemma ComparisonExact(x: real, y: real, a: F64)
    ensures Lt(Finite(x), Finite(y)) <==> x < y
    ensures Lt(NegInf, Finite(x)) && Lt(Finite(x), PosInf) && Lt(NegInf, PosInf)
    ensures !Lt(Finite(x), NegInf) && !Lt(PosInf, Finite(x)) && !Lt(PosInf, NegInf) && !Lt(a, a)
    ensures !Lt(NaN, a) && !Lt(a, NaN) && !Le(NaN, a) && !Le(a, NaN)
    ensures !a.NaN? ==> Le(a, a)
  {
  }

  predicate Measured(c: Candidate) { !c.accuracy.NaN? && !c.failureRate.NaN? && !c.latency.NaN? }

  /** On any single axis: a higher accuracy, a lower failure rate, fewer unsafe actions, fewer
      hallucinations, a lower latency or fewer tokens dominate, other things being equal. */
  lemma BetterOnOneAxisDominates(c: Candidate, x: F64, n: nat)
    requires Measured(c)
    ensures Lt(c.accuracy, x) ==> Dominates(c.(accuracy := x), c)
    ensures Lt(x, c.failureRate) ==> Dominates(c.(failureRate := x), c)
    ensures n < c.unsafeActions ==> Dominates(c.(unsafeActions := n), c)
    ensures n < c.hallucinations ==> Dominates(c.(hallucinations := n), c)
    ensures Lt(x, c.latency) ==> Dominates(c.(latency := x), c)
    ensures n < c.tokens ==> Dominates(c.(tokens := n), c)
  {
  }

  /** And one that is worse on a single axis never dominates, however good the others; nor does
      one with a NaN, or over one. */
  lemma WorseOnOneAxisNeverDominates(a: Candidate, b: Candidate)
    requires || Lt(a.accuracy, b.accuracy) || Lt(b.failureRate, a.failureRate) || b.unsafeActions < a.unsafeActions
             || b.hallucinations < a.hallucinations || Lt(b.latency, a.latency) || b.tokens < a.tokens
             || !Measured(a) || !Measured(b)
    ensures !Dominates(a, b)
  {
  }

  // ---- dominance is a strict order, NaN or not -----------------------------------

  lemma DominanceIrreflexive(a: Candidate)
    ensures !Dominates(a, a)
  {
  }

  lemma DominanceTransitive(a: Candidate, b: Candidate, c: Candidate)
    requires Dominates(a, b) && Dominates(b, c)
    ensures Dominates(a, c)
  {
  }

  ghost function Dominators(cs: seq<Candidate>, i: nat): set<nat>
    requires i < |cs|
  {
    set j: nat | j < |cs| && Dominates(cs[j], cs[i])
  }

  /** Coverage: every candidate left out is beaten by one that is kept, whatever NaNs or
      infinities the metrics carry. */
  lemma {:induction false} Covered(cs: seq<Candidate>, i: nat) returns (w: nat)
    requires i < |cs| && Dominated(cs, i)
    ensures w in Front(cs, |cs|) && Dominates(cs[w], cs[i])
    decreases |Dominators(cs, i)|
  {
    FrontExact(cs, |cs|);
    var j :| 0 <= j < |cs| && j != i && Dominates(cs[j], cs[i]);
    if Dominated(cs, j) {
      forall d | d in Dominators(cs, j) ensures d in Dominators(cs, i) {
        DominanceTransitive(cs[d], cs[j], cs[i]);
      }
      DominanceIrreflexive(cs[j]);
      assert j in Dominators(cs, i) && j !in Dominators(cs, j);
      Shrinks(Dominators(cs, j), Dominators(cs, i), j);
      w := Covered(cs, j);
      DominanceTransitive(cs[w], cs[j], cs[i]);
    } else {
      w := j;
    }
  }

  lemma Shrinks(a: set<nat>, b: set<nat>, x: nat)
    requires a <= b && x in b && x !in a
    ensures |a| < |b|
  {
    assert a <= b - {x};
    assert |a| <= |b - {x}| by { SubsetCardinality(a, b - {x}); }
  }

  /** Something is always selected. */
  lemma FrontNonEmpty(cs: seq<Candidate>)
    requires cs != []
    ensures Front(cs, |cs|) != []
  {
    FrontExact(cs, |cs|);
    if Dominated(cs, 0) {
      var w := Covered(cs, 0);
    } else {
      assert 0 in Front(cs, |cs|);
    }
  }

  /** No selected candidate beats another. */
  lemma SelectedAreMutuallyUndominated(cs: seq<Candidate>, i: nat, j: nat)
    requires i in Front(cs, |cs|) && j in Front(cs, |cs|)
    ensures !Dominates(cs[i], cs[j])
  {
    FrontExact(cs, |cs|);
    if i == j { DominanceIrreflexive(cs[i]); }
  }
}
