/** The context kernel: filter by sensitivity, rank, spend the token budget, report what is
    contradicted under a budget of its own, and regroup into sections. */
module ContextKernel {
  import opened Prelude
  import opened Values
  import opened Budget
  import opened Context
  import opened Sections

  datatype Request = Request(task: Task, maxTokens: nat, ceiling: DataClass)

  datatype Bundle = Bundle(
    required: seq<string>, planBudget: nat, sections: Sectioned<Item>, totalTokens: nat, contradictions: seq<string>)

  // ---- ranking ---------------------------------------------------------------------------

  predicate Visible(item: Item, ceiling: DataClass) { item.sensitivity.Rank() <= ceiling.Rank() }

  /** An item is considered exactly when its class is among those the ceiling admits. */
  lemma VisibleIff(item: Item, ceiling: DataClass)
    ensures Visible(item, ceiling) <==> item.sensitivity in AdmittedBy(ceiling)
  {
    CeilingAdmits(item.sensitivity, ceiling);
  }

  /** An item without an evidence id is given one derived from its own provenance and payload. */
  function Issue(item: Item, derive: Item -> string): Item
  {
    if item.evidenceId == "" then item.(evidenceId := derive(item)) else item
  }

  /** Only the evidence id may change: a missing one becomes the derived one, and with derived ids
      that are never empty no issued item lacks one. */
  lemma IssueExact(item: Item, derive: Item -> string)
    ensures Issue(item, derive) == item.(evidenceId := Issue(item, derive).evidenceId)
    ensures item.evidenceId != [] ==> Issue(item, derive).evidenceId == item.evidenceId
    ensures item.evidenceId == [] ==> Issue(item, derive).evidenceId == derive(item)
    ensures derive(item) != [] ==> Issue(item, derive).evidenceId != []
  {
  }

  function IssueAll(items: seq<Item>, derive: Item -> string): seq<Item>
  {
    seq(|items|, i requires 0 <= i < |items| => Issue(items[i], derive))
  }

  function Shown(items: seq<Item>, ceiling: DataClass): seq<Item> { Filter(items, item => Visible(item, ceiling)) }

  function Ranked(items: seq<Item>, ceiling: DataClass, derive: Item -> string): seq<Item>
  {
    Sort(IssueAll(Shown(items, ceiling), derive), Priority)
  }

  function Cost(item: Item): nat { item.tokenCost }

  /** The ranking is a permutation of the visible items as issued, highest priority first. */
  lemma RankedExact(items: seq<Item>, ceiling: DataClass, derive: Item -> string)
    ensures var ranked := Ranked(items, ceiling, derive);
            && Sorted(ranked, Priority)
            && multiset(ranked) == multiset(IssueAll(Shown(items, ceiling), derive))
            && forall x :: x in ranked <==> exists item :: item in items && Visible(item, ceiling) && x == Issue(item, derive)
  {
    var issued := IssueAll(Shown(items, ceiling), derive);
    PriorityIsTotal();
    SortCorrect(issued, Priority);
    SameElements(Sort(issued, Priority), issued);
    forall x ensures x in issued <==> exists item :: item in items && Visible(item, ceiling) && x == Issue(item, derive) {
      IssuedExact(Shown(items, ceiling), derive, x);
      assert forall item :: item in Shown(items, ceiling) <==> item in items && Visible(item, ceiling);
    }
  }

  lemma IssuedExact(items: seq<Item>, derive: Item -> string, x: Item)
    ensures x in IssueAll(items, derive) <==> exists item :: item in items && x == Issue(item, derive)
  {
    if item :| item in items && x == Issue(item, derive) {
      var i :| 0 <= i < |items| && items[i] == item;
      assert IssueAll(items, derive)[i] == x;
    }
  }

  /** Whoever is considered first has the higher authority; at equal authority it is not the older
      one, and an undated item never precedes a dated one; at equal dates its source sorts first. */
  lemma RankedOrder(items: seq<Item>, ceiling: DataClass, derive: Item -> string, i: nat, j: nat)
    requires i < j < |Ranked(items, ceiling, derive)|
    ensures var x, y := Ranked(items, ceiling, derive)[i], Ranked(items, ceiling, derive)[j];
            && x.authority.Rank() <= y.authority.Rank()
            && (x.authority == y.authority && y.observedAt.Some? ==>
                  x.observedAt.Some? && y.observedAt.value <= x.observedAt.value)
            && (x.authority == y.authority && x.observedAt == y.observedAt ==> StrLe(x.source, y.source))
  {
    RankedExact(items, ceiling, derive);
    PriorityMeans(Ranked(items, ceiling, derive)[i], Ranked(items, ceiling, derive)[j]);
  }

  /** Full ties are considered in input order. */
  lemma RankingIsStable(items: seq<Item>, ceiling: DataClass, derive: Item -> string, x: Item)
    ensures Filter(Ranked(items, ceiling, derive), y => Tied(x, y))
         == Filter(IssueAll(Shown(items, ceiling), derive), y => Tied(x, y))
  {
    PriorityIsTotal();
    forall y ensures Tied(x, y) <==> Priority(x, y) && Priority(y, x) { TiesAgree(x, y); }
    SortKeepsTies(IssueAll(Shown(items, ceiling), derive), Priority, x, y => Tied(x, y));
  }

  // ---- claims ------------------------------------------------------------------------------

  /** One of the values in dispute at a contradicted address. */
  datatype Claim = Claim(attribute: string, address: FactAddress, value: Json)

  ghost predicate Disputed(items: seq<Item>, at: Addressing, c: Claim)
  {
    && Contradicted(items, at, c.attribute, c.address)
    && exists item :: item in items && States(item, at, c.address, c.attribute, c.value)
  }

  /** The name of the first item that makes the claim. */
  function SourceFor(items: seq<Item>, at: Addressing, c: Claim): Option<string>
  {
    if items == [] then None
    else if States(items[0], at, c.address, c.attribute, c.value) then Some(items[0].source)
    else SourceFor(items[1..], at, c)
  }

  lemma {:induction false} SourceIffStated(items: seq<Item>, at: Addressing, c: Claim)
    ensures SourceFor(items, at, c).Some? <==>
              exists item :: item in items && States(item, at, c.address, c.attribute, c.value)
  {
    if items != [] {
      SourceIffStated(items[1..], at, c);
      if item :| item in items && States(item, at, c.address, c.attribute, c.value) {
        assert item == items[0] || item in items[1..];
      }
    }
  }

  lemma {:induction false} SourceOfBoth(a: seq<Item>, b: seq<Item>, at: Addressing, c: Claim)
    ensures SourceFor(a + b, at, c) ==
              if SourceFor(a, at, c).Some? then SourceFor(a, at, c) else SourceFor(b, at, c)
    decreases |a|
  {
    if a == [] {
      assert a + b == b;
    } else {
      assert (a + b)[1..] == a[1..] + b;
      SourceOfBoth(a[1..], b, at, c);
    }
  }

  /** The `i`-th item is the first that makes the claim. */
  ghost predicate FirstToState(items: seq<Item>, at: Addressing, c: Claim, i: int)
  {
    && 0 <= i < |items| && States(items[i], at, c.address, c.attribute, c.value)
    && forall j | 0 <= j < i :: !States(items[j], at, c.address, c.attribute, c.value)
  }

  /** The source named is that of the first item making the claim. */
  lemma {:induction false} SourceExact(items: seq<Item>, at: Addressing, c: Claim, s: string)
    ensures SourceFor(items, at, c) == Some(s) <==> exists i :: FirstToState(items, at, c, i) && items[i].source == s
  {
    if items != [] {
      if States(items[0], at, c.address, c.attribute, c.value) {
        assert FirstToState(items, at, c, 0);
      } else {
        SourceExact(items[1..], at, c, s);
        if i :| FirstToState(items[1..], at, c, i) && items[1..][i].source == s {
          assert forall j | 1 <= j <= i + 1 :: items[j] == items[1..][j - 1];
          assert FirstToState(items, at, c, i + 1);
        }
        if i :| FirstToState(items, at, c, i) && items[i].source == s {
          assert forall j | 0 <= j < i :: items[1..][j] == items[j + 1];
          assert FirstToState(items[1..], at, c, i - 1);
        }
      }
    }
  }

  /** A disputed claim always has a source; selected items are asked before dropped ones. */
  lemma SourceIsFirst(selected: seq<Item>, dropped: seq<Item>, at: Addressing, c: Claim)
    ensures var s := SourceFor(selected + dropped, at, c);
            && (Disputed(selected + dropped, at, c) ==> s.Some?)
            && (s.Some? ==> exists i :: FirstToState(selected + dropped, at, c, i) && (selected + dropped)[i].source == s.value)
            && s == if SourceFor(selected, at, c).Some? then SourceFor(selected, at, c) else SourceFor(dropped, at, c)
  {
    SourceIffStated(selected + dropped, at, c);
    SourceOfBoth(selected, dropped, at, c);
    var s := SourceFor(selected + dropped, at, c);
    if s.Some? { SourceExact(selected + dropped, at, c, s.value); }
  }

  function Line(source: Option<string>, value: string, attribute: string): string
  {
    "source " + (if source.Some? then source.value else "unknown") + " says value " + value + " for " + attribute
  }

  /** How a claim reads; `show` is the JSON rendering of a value. */
  function Wording(items: seq<Item>, at: Addressing, show: Json -> string): Claim -> string
  {
    (c: Claim) => Line(SourceFor(items, at, c), show(c.value), c.attribute)
  }

  function Texts(claims: seq<Claim>, say: Claim -> string): seq<string>
  {
    seq(|claims|, i requires 0 <= i < |claims| => say(claims[i]))
  }

  /** Four characters a token, rounded up; the length is first cut to 32 bits. */
  function EstimateTokens(line: string): (cost: nat)
    ensures cost <= 0x4000_0000
  {
    (|line| % U32 + 3) / 4
  }

  /** The least number of four-character tokens that holds the line. */
  lemma EstimateIsCeiling(line: string)
    requires |line| < U32
    ensures 4 * EstimateTokens(line) - 4 < |line| <= 4 * EstimateTokens(line)
  {
    SmallMod(|line|);
  }

  /** By attribute, then address, then first statement. */
  ghost predicate ClaimLe(c: Claim, d: Claim, items: seq<Item>, at: Addressing)
  {
    if c.attribute != d.attribute then StrLe(c.attribute, d.attribute)
    else if c.address != d.address then AddressesLe(c.address, d.address)
    else StatedBefore(items, at, c.attribute, c.address, c.value, d.value)
  }

  ghost predicate InOrder(claims: seq<Claim>, items: seq<Item>, at: Addressing)
  {
    forall i, j | 0 <= i < j < |claims| :: ClaimLe(claims[i], claims[j], items, at)
  }

  lemma JoinInOrder(a: seq<Claim>, b: seq<Claim>, items: seq<Item>, at: Addressing)
    requires InOrder(a, items, at) && InOrder(b, items, at)
    requires forall c, d | c in a && d in b :: ClaimLe(c, d, items, at)
    ensures InOrder(a + b, items, at)
  {
    forall i, j | 0 <= i < j < |a + b| ensures ClaimLe((a + b)[i], (a + b)[j], items, at) {
      if i < |a| <= j { assert a[i] in a && b[j - |a|] in b; }
    }
  }

  /** Every disputed claim about the attributes, once, in order. */
  ghost predicate ClaimsExact(claims: seq<Claim>, items: seq<Item>, at: Addressing, attributes: seq<string>)
  {
    && Distinct(claims) && InOrder(claims, items, at)
    && forall c :: c in claims <==> c.attribute in attributes && Disputed(items, at, c)
  }

  method CollectAttributes(items: seq<Item>) returns (attributes: seq<string>)
    ensures forall k :: k in attributes <==> exists item :: item in items && Get(item.payload, k).Some?
    ensures Distinct(attributes) && Sorted(attributes, StrLe)
  {
    var found: seq<string> := [];
    for i := 0 to |items|
      invariant Distinct(found)
      invariant forall k :: k in found <==> exists j :: 0 <= j < i && Get(items[j].payload, k).Some?
    {
      if items[i].payload.Obj? {
        var keys := items[i].payload.members.Keys;
        while keys != {}
          invariant keys <= items[i].payload.members.Keys
          invariant Distinct(found)
          invariant forall k :: k in found <==>
            (k in items[i].payload.members && k !in keys) || exists j :: 0 <= j < i && Get(items[j].payload, k).Some?
          decreases keys
        {
          var key :| key in keys;
          if key !in found { found := found + [key]; }
          keys := keys - {key};
        }
      }
    }
    StrLeIsTotalPreorder();
    SortCorrect(found, StrLe);
    attributes := Sort(found, StrLe);
    SameElements(attributes, found);
    PermutationDistinct(found, attributes);
    forall k ensures k in attributes <==> exists item :: item in items && Get(item.payload, k).Some? {
      if item :| item in items && Get(item.payload, k).Some? {
        var j :| 0 <= j < |items| && items[j] == item;
        assert Get(items[j].payload, k).Some?;
      }
      if k in found {
        var j :| 0 <= j < |items| && Get(items[j].payload, k).Some?;
        assert items[j] in items;
      }
    }
  }

  // ---- emitting lines under the conflict cap -----------------------------------------------

  /** The accumulators of the emitting loops after the lines `offered`. */
  ghost predicate Ledger(offered: seq<string>, cap: nat, before: nat, lines: seq<string>, spent: nat, total: nat)
  {
    && lines == Pick(offered, EstimateTokens, cap).selected
    && spent == Pick(offered, EstimateTokens, cap).total
    && total == (before + Sum(lines, EstimateTokens)) % U32
  }

  lemma LedgerStep(offered: seq<string>, cap: nat, before: nat, lines: seq<string>, spent: nat, total: nat, line: string)
    requires Ledger(offered, cap, before, lines, spent, total)
    ensures var cost := EstimateTokens(line);
            if Add32(spent, cost) <= cap
            then Ledger(offered + [line], cap, before, lines + [line], Add32(spent, cost), Add32(total, cost))
            else Ledger(offered + [line], cap, before, lines, spent, total)
  {
    assert (offered + [line])[..|offered|] == offered;
    SumPush(lines, line, EstimateTokens);
    ModStep(before + Sum(lines, EstimateTokens), EstimateTokens(line));
  }

  function ValueClaims(attribute: string, a: FactAddress, values: seq<Json>): seq<Claim>
  {
    seq(|values|, i requires 0 <= i < |values| => Claim(attribute, a, values[i]))
  }

  function CandidateClaims(attribute: string, cs: Candidates): seq<Claim>
  {
    if cs == [] then []
    else CandidateClaims(attribute, cs[..|cs| - 1]) + ValueClaims(attribute, cs[|cs| - 1].0, cs[|cs| - 1].1)
  }

  lemma {:induction false} CandidateClaimsIn(attribute: string, cs: Candidates)
    ensures forall c :: c in CandidateClaims(attribute, cs) <==>
              c.attribute == attribute && exists p :: p in cs && p.0 == c.address && c.value in p.1
  {
    if cs != [] {
      var init, last := cs[..|cs| - 1], cs[|cs| - 1];
      CandidateClaimsIn(attribute, init);
      assert cs == init + [last];
      forall c ensures c in CandidateClaims(attribute, cs) <==>
                         c.attribute == attribute && exists p :: p in cs && p.0 == c.address && c.value in p.1 {
        ValueClaimsIn(attribute, last.0, last.1, c);
        if c.attribute == attribute && exists p :: p in cs && p.0 == c.address && c.value in p.1 {
          var p :| p in cs && p.0 == c.address && c.value in p.1;
          assert p in init || p == last;
        }
      }
    }
  }

  lemma ValueClaimsIn(attribute: string, a: FactAddress, values: seq<Json>, c: Claim)
    ensures c in ValueClaims(attribute, a, values) <==> c.attribute == attribute && c.address == a && c.value in values
  {
    if c.attribute == attribute && c.address == a && c.value in values {
      var i :| 0 <= i < |values| && values[i] == c.value;
      assert ValueClaims(attribute, a, values)[i] == c;
    }
  }

  lemma {:induction false} CandidateClaimsDistinct(attribute: string, cs: Candidates)
    requires forall i, j | 0 <= i < j < |cs| :: cs[i].0 != cs[j].0
    requires forall p | p in cs :: Distinct(p.1)
    ensures Distinct(CandidateClaims(attribute, cs))
  {
    if cs != [] {
      var init, last := cs[..|cs| - 1], cs[|cs| - 1];
      CandidateClaimsDistinct(attribute, init);
      CandidateClaimsIn(attribute, init);
      var old_, new_ := CandidateClaims(attribute, init), ValueClaims(attribute, last.0, last.1);
      forall c | c in old_ ensures c !in new_ {
        ValueClaimsIn(attribute, last.0, last.1, c);
      }
      assert Distinct(last.1);
      DistinctJoin(old_, new_);
    }
  }

  lemma {:induction false} CandidateClaimsInOrder(attribute: string, cs: Candidates, items: seq<Item>, at: Addressing)
    requires Sorted(cs, AddressLe) && forall i, j | 0 <= i < j < |cs| :: cs[i].0 != cs[j].0
    requires forall p | p in cs :: p.1 == ValuesAt(items, at, attribute, p.0)
    ensures InOrder(CandidateClaims(attribute, cs), items, at)
  {
    if cs != [] {
      var init, last := cs[..|cs| - 1], cs[|cs| - 1];
      CandidateClaimsInOrder(attribute, init, items, at);
      var a, b := CandidateClaims(attribute, init), ValueClaims(attribute, last.0, last.1);
      assert last in cs;
      forall i, j | 0 <= i < j < |b| ensures ClaimLe(b[i], b[j], items, at) { ValuesInOrder(items, at, attribute, last.0, i, j); }
      forall c, d | c in a && d in b ensures ClaimLe(c, d, items, at) {
        CandidateClaimsIn(attribute, init);
        ValueClaimsIn(attribute, last.0, last.1, d);
        var p :| p in init && p.0 == c.address && c.value in p.1;
        var k :| 0 <= k < |init| && init[k] == p;
        assert AddressLe(cs[k], cs[|cs| - 1]);
      }
      JoinInOrder(a, b, items, at);
    }
  }

  lemma ClaimsStayInOrder(claims: seq<Claim>, items: seq<Item>, at: Addressing, attributes: seq<string>, i: nat, cs: Candidates)
    requires i < |attributes| && Distinct(attributes) && Sorted(attributes, StrLe) && Sorted(cs, AddressLe)
    requires InOrder(claims, items, at) && forall c | c in claims :: c.attribute in attributes[..i]
    requires Exact(cs, items, at, attributes[i])
    ensures InOrder(claims + CandidateClaims(attributes[i], cs), items, at)
  {
    var added := CandidateClaims(attributes[i], cs);
    CandidateClaimsInOrder(attributes[i], cs, items, at);
    CandidateClaimsIn(attributes[i], cs);
    forall c, d | c in claims && d in added ensures ClaimLe(c, d, items, at) {
      var k :| 0 <= k < |attributes[..i]| && attributes[..i][k] == c.attribute;
      assert StrLe(attributes[k], attributes[i]);
    }
    JoinInOrder(claims, added, items, at);
  }

  /** Adding an attribute's claims keeps the list exact. */
  lemma ClaimsStep(claims: seq<Claim>, items: seq<Item>, at: Addressing, attributes: seq<string>, i: nat, cs: Candidates)
    requires i < |attributes| && Distinct(attributes) && Sorted(attributes, StrLe) && Sorted(cs, AddressLe)
    requires ClaimsExact(claims, items, at, attributes[..i])
    requires Exact(cs, items, at, attributes[i])
    ensures ClaimsExact(claims + CandidateClaims(attributes[i], cs), items, at, attributes[..i + 1])
  {
    ClaimsStayInOrder(claims, items, at, attributes, i, cs);
    var attribute := attributes[i];
    var added := CandidateClaims(attribute, cs);
    CandidateClaimsIn(attribute, cs);
    forall p | p in cs ensures Distinct(p.1) { ValuesAtExact(items, at, attribute, p.0); }
    CandidateClaimsDistinct(attribute, cs);
    assert attributes[..i + 1] == attributes[..i] + [attribute];
    assert attribute !in attributes[..i];
    DistinctJoin(claims, added);
    forall c ensures c in added <==> c.attribute == attribute && Disputed(items, at, c) {
      if c.attribute == attribute { CandidateIffDisputed(c, items, at, attribute, cs); }
    }
  }

  lemma CandidateIffDisputed(c: Claim, items: seq<Item>, at: Addressing, attribute: string, cs: Candidates)
    requires Exact(cs, items, at, attribute) && c.attribute == attribute
    ensures (exists p :: p in cs && p.0 == c.address && c.value in p.1) <==> Disputed(items, at, c)
  {
    ValuesAtExact(items, at, attribute, c.address);
    if Disputed(items, at, c) {
      var p := (c.address, ValuesAt(items, at, attribute, c.address));
      assert p in cs && c.value in p.1;
    }
  }

  /** The lines about one attribute. */
  method EmitCandidates(
    attribute: string, cs: Candidates, say: Claim -> string, cap: nat, ghost before: nat, ghost claims: seq<Claim>,
    lines0: seq<string>, spent0: nat, total0: nat)
    returns (lines: seq<string>, spent: nat, total: nat)
    requires Ledger(Texts(claims, say), cap, before, lines0, spent0, total0)
    ensures Ledger(Texts(claims + CandidateClaims(attribute, cs), say), cap, before, lines, spent, total)
  {
    lines, spent, total := lines0, spent0, total0;
    assert claims + CandidateClaims(attribute, cs[..0]) == claims;
    for j := 0 to |cs|
      invariant Ledger(Texts(claims + CandidateClaims(attribute, cs[..j]), say), cap, before, lines, spent, total)
    {
      var (address, values) := cs[j];
      ghost var so_far := claims + CandidateClaims(attribute, cs[..j]);
      assert so_far + ValueClaims(attribute, address, values[..0]) == so_far;
      for k := 0 to |values|
        invariant Ledger(Texts(so_far + ValueClaims(attribute, address, values[..k]), say), cap, before, lines, spent, total)
      {
        var claim := Claim(attribute, address, values[k]);
        var line := say(claim);
        TextsPush(so_far, attribute, address, values, k, say);
        LedgerStep(Texts(so_far + ValueClaims(attribute, address, values[..k]), say), cap, before, lines, spent, total, line);
        var cost := EstimateTokens(line);
        if Add32(spent, cost) <= cap {
          spent, total, lines := Add32(spent, cost), Add32(total, cost), lines + [line];
        }
      }
      CandidatesPush(claims, attribute, cs, j);
      assert values[..|values|] == values;
    }
    assert cs[..|cs|] == cs;
  }

  lemma TextsPush(so_far: seq<Claim>, attribute: string, a: FactAddress, values: seq<Json>, k: nat, say: Claim -> string)
    requires k < |values|
    ensures Texts(so_far + ValueClaims(attribute, a, values[..k + 1]), say)
         == Texts(so_far + ValueClaims(attribute, a, values[..k]), say) + [say(Claim(attribute, a, values[k]))]
  {
  }

  lemma CandidatesPush(claims: seq<Claim>, attribute: string, cs: Candidates, j: nat)
    requires j < |cs|
    ensures claims + CandidateClaims(attribute, cs[..j + 1])
         == claims + CandidateClaims(attribute, cs[..j]) + ValueClaims(attribute, cs[j].0, cs[j].1)
  {
    assert cs[..j + 1][..j] == cs[..j];
  }

  /** One attribute: detect, then emit. */
  method EmitAttribute(
    attribute: string, items: seq<Item>, at: Addressing, say: Claim -> string, cap: nat,
    ghost before: nat, ghost claims: seq<Claim>, lines0: seq<string>, spent0: nat, total0: nat)
    returns (lines: seq<string>, spent: nat, total: nat)
    requires Ledger(Texts(claims, say), cap, before, lines0, spent0, total0)
    ensures exists cs :: Exact(cs, items, at, attribute) && Sorted(cs, AddressLe) &&
              Ledger(Texts(claims + CandidateClaims(attribute, cs), say), cap, before, lines, spent, total)
  {
    var cs := ContradictionCandidates(items, at, attribute);
    lines, spent, total := EmitCandidates(attribute, cs, say, cap, before, claims, lines0, spent0, total0);
  }

  /** The report made of `claims`: the lines the cap admits, sorted, their cost on top of `before`. */
  ghost predicate Reports(
    contradictions: seq<string>, total: nat, claims: seq<Claim>, say: Claim -> string, cap: nat, before: nat)
  {
    var lines := Pick(Texts(claims, say), EstimateTokens, cap).selected;
    contradictions == Sort(lines, StrLe) && Wraps(total, before + Sum(lines, EstimateTokens))
  }

  method EmitContradictions(
    attributes: seq<string>, items: seq<Item>, at: Addressing, say: Claim -> string, cap: nat, before: nat)
    returns (contradictions: seq<string>, total: nat)
    requires Distinct(attributes) && Sorted(attributes, StrLe) && before < U32
    ensures exists claims :: ClaimsExact(claims, items, at, attributes) &&
              Reports(contradictions, total, claims, say, cap, before)
  {
    var lines: seq<string>, spent := [], 0;
    total := before;
    ghost var claims: seq<Claim> := [];
    NothingYet(items, at, attributes, say, cap, before);
    for i := 0 to |attributes|
      invariant ClaimsExact(claims, items, at, attributes[..i])
      invariant Ledger(Texts(claims, say), cap, before, lines, spent, total)
    {
      lines, spent, total := EmitAttribute(attributes[i], items, at, say, cap, before, claims, lines, spent, total);
      ghost var cs :| Exact(cs, items, at, attributes[i]) && Sorted(cs, AddressLe) &&
        Ledger(Texts(claims + CandidateClaims(attributes[i], cs), say), cap, before, lines, spent, total);
      ClaimsStep(claims, items, at, attributes, i, cs);
      claims := claims + CandidateClaims(attributes[i], cs);
    }
    assert attributes[..|attributes|] == attributes;
    contradictions := Sort(lines, StrLe);
    LedgerReports(claims, say, cap, before, lines, spent, total);
  }

  lemma NothingYet(items: seq<Item>, at: Addressing, attributes: seq<string>, say: Claim -> string, cap: nat, before: nat)
    requires before < U32
    ensures ClaimsExact([], items, at, attributes[..0]) && Ledger(Texts([], say), cap, before, [], 0, before)
  {
    assert attributes[..0] == [] && Texts([], say) == [];
  }

  lemma LedgerReports(
    claims: seq<Claim>, say: Claim -> string, cap: nat, before: nat, lines: seq<string>, spent: nat, total: nat)
    requires Ledger(Texts(claims, say), cap, before, lines, spent, total)
    ensures Reports(Sort(lines, StrLe), total, claims, say, cap, before)
  {
    ModWraps(before + Sum(lines, EstimateTokens));
  }

  // ---- the bundle -----------------------------------------------------------------------------

  function Sectioner(required: seq<string>): Item -> string { (item: Item) => SectionOf(item, required) }

  /** Every disputed claim among the items, once, in order. */
  ghost predicate AllDisputes(claims: seq<Claim>, items: seq<Item>, at: Addressing)
  {
    Distinct(claims) && InOrder(claims, items, at) && forall c :: c in claims <==> Disputed(items, at, c)
  }

  /** What a bundle is, given the ranked items and the claims in the order they were offered. */
  ghost predicate Assembled(
    bundle: Bundle, claims: seq<Claim>, ranked: seq<Item>, at: Addressing, budget: TokenBudget, show: Json -> string)
  {
    var p := Pick(ranked, Cost, budget.normal);
    var all := p.selected + p.dropped;
    && LaidOut(bundle.sections, p.selected, Sectioner(bundle.required), bundle.required)
    && AllDisputes(claims, all, at)
    && Reports(bundle.contradictions, bundle.totalTokens, claims, Wording(all, at, show), budget.ConflictCap(), p.total)
  }

  method BuildContextBundle(
    request: Request, items: seq<Item>, budget: TokenBudget, derive: Item -> string, show: Json -> string)
    returns (bundle: Bundle)
    requires budget.Valid() && forall item | item in items :: item.tokenCost < U32
    ensures bundle.required == PlanContext(request.task) && bundle.planBudget == request.maxTokens
    ensures exists claims ::
              Assembled(bundle, claims, Ranked(items, request.ceiling, derive), FactAddressOf, budget, show)
  {
    var ranked := Ranked(items, request.ceiling, derive);
    CostsFit(items, request.ceiling, derive);
    bundle := Assemble(PlanContext(request.task), request.maxTokens, ranked, FactAddressOf, budget, show);
  }

  method Assemble(
    required: seq<string>, maxTokens: nat, ranked: seq<Item>, at: Addressing, budget: TokenBudget, show: Json -> string)
    returns (bundle: Bundle)
    requires budget.Valid() && forall x | x in ranked :: Cost(x) < U32
    ensures bundle.required == required && bundle.planBudget == maxTokens
    ensures exists claims :: Assembled(bundle, claims, ranked, at, budget, show)
  {
    var selected, dropped, spent := Spend(ranked, Cost, budget.normal);
    ReportedTotal(ranked, Cost, budget.normal);
    var all := selected + dropped;
    var contradictions, total := Report(all, at, show, budget.ConflictCap(), spent);
    ghost var claims :| AllDisputes(claims, all, at) &&
      Reports(contradictions, total, claims, Wording(all, at, show), budget.ConflictCap(), spent);
    var sections := Regroup(selected, Sectioner(required), required);
    bundle := Bundle(required, maxTokens, sections, total, contradictions);
    assert Assembled(bundle, claims, ranked, at, budget, show);
  }

  /** The contradiction lines about all the items. */
  method Report(all: seq<Item>, at: Addressing, show: Json -> string, cap: nat, spent: nat)
    returns (contradictions: seq<string>, total: nat)
    requires spent < U32
    ensures exists claims :: AllDisputes(claims, all, at) &&
              Reports(contradictions, total, claims, Wording(all, at, show), cap, spent)
  {
    var attributes := CollectAttributes(all);
    var say := Wording(all, at, show);
    contradictions, total := EmitContradictions(attributes, all, at, say, cap, spent);
    ghost var claims :| ClaimsExact(claims, all, at, attributes) && Reports(contradictions, total, claims, say, cap, spent);
    forall c ensures c in claims <==> Disputed(all, at, c) {
      if Disputed(all, at, c) {
        var item :| item in all && States(item, at, c.address, c.attribute, c.value);
        assert Get(item.payload, c.attribute).Some?;
      }
    }
    assert AllDisputes(claims, all, at);
  }

  lemma CostsFit(items: seq<Item>, ceiling: DataClass, derive: Item -> string)
    requires forall item | item in items :: item.tokenCost < U32
    ensures forall x | x in Ranked(items, ceiling, derive) :: Cost(x) < U32
  {
    RankedExact(items, ceiling, derive);
  }

  // ---- what a bundle promises -------------------------------------------------------------------

  /** The lines a report was offered. */
  function Offered(claims: seq<Claim>, ranked: seq<Item>, at: Addressing, budget: TokenBudget, show: Json -> string): seq<string>
  {
    var p := Pick(ranked, Cost, budget.normal);
    Texts(claims, Wording(p.selected + p.dropped, at, show))
  }

  /** The declared token costs of the items, together. */
  function ItemTokens(items: seq<Item>): nat
  {
    if items == [] then 0 else ItemTokens(items[..|items| - 1]) + items[|items| - 1].tokenCost
  }

  lemma {:induction false} CostIsTokens(items: seq<Item>)
    ensures Sum(items, Cost) == ItemTokens(items)
  {
    if items != [] { CostIsTokens(items[..|items| - 1]); }
  }

  /** For every budget and all costs: the reported total stays within both budgets together, and it
      is the cost of the items in the sections plus that of the contradiction lines exactly when
      neither loop nor their sum overflows 32 bits. */
  lemma TokensAreConserved(
    bundle: Bundle, claims: seq<Claim>, ranked: seq<Item>, at: Addressing, budget: TokenBudget, show: Json -> string)
    requires Assembled(bundle, claims, ranked, at, budget, show)
    requires budget.Valid() && forall x | x in ranked :: Cost(x) < U32
    ensures bundle.totalTokens <= budget.normal + budget.ConflictCap()
    ensures var offered := Offered(claims, ranked, at, budget, show);
            var items, lines := Pick(ranked, Cost, budget.normal), Pick(offered, EstimateTokens, budget.ConflictCap());
            (bundle.totalTokens == ItemTokens(Flat(bundle.sections)) + Sum(bundle.contradictions, EstimateTokens)) <==>
              (&& NoOverflow(ranked, Cost, budget.normal) && NoOverflow(offered, EstimateTokens, budget.ConflictCap())
               && items.total + lines.total < U32)
  {
    var offered := Offered(claims, ranked, at, budget, show);
    var items, lines := Pick(ranked, Cost, budget.normal), Pick(offered, EstimateTokens, budget.ConflictCap());
    CostIsTokens(Flat(bundle.sections));
    SelectionTotals(bundle, claims, ranked, at, budget, show);
    LineTotals(bundle, claims, ranked, at, budget, show);
    TotalOfBoth(bundle.totalTokens, items.total, Sum(Flat(bundle.sections), Cost),
                lines.total, Sum(bundle.contradictions, EstimateTokens));
  }

  lemma SelectionTotals(
    bundle: Bundle, claims: seq<Claim>, ranked: seq<Item>, at: Addressing, budget: TokenBudget, show: Json -> string)
    requires Assembled(bundle, claims, ranked, at, budget, show)
    requires budget.Valid() && forall x | x in ranked :: Cost(x) < U32
    ensures var items, cost := Pick(ranked, Cost, budget.normal), Sum(Flat(bundle.sections), Cost);
            && Wraps(items.total, cost) && items.total <= budget.normal
            && (items.total == cost <==> NoOverflow(ranked, Cost, budget.normal))
  {
    ReportedTotal(ranked, Cost, budget.normal);
    ModWraps(Sum(Pick(ranked, Cost, budget.normal).selected, Cost));
    SectionsCost(bundle.sections, Pick(ranked, Cost, budget.normal).selected, bundle.required);
  }

  lemma LineTotals(
    bundle: Bundle, claims: seq<Claim>, ranked: seq<Item>, at: Addressing, budget: TokenBudget, show: Json -> string)
    requires Assembled(bundle, claims, ranked, at, budget, show) && budget.Valid()
    ensures var offered := Offered(claims, ranked, at, budget, show);
            var lines, cost := Pick(offered, EstimateTokens, budget.ConflictCap()), Sum(bundle.contradictions, EstimateTokens);
            && Wraps(bundle.totalTokens, Pick(ranked, Cost, budget.normal).total + cost)
            && Wraps(lines.total, cost) && lines.total <= budget.ConflictCap()
            && (lines.total == cost <==> NoOverflow(offered, EstimateTokens, budget.ConflictCap()))
  {
    var p := Pick(ranked, Cost, budget.normal);
    ReportTotals(bundle.contradictions, bundle.totalTokens, claims, Wording(p.selected + p.dropped, at, show),
                 budget.ConflictCap(), p.total);
  }

  lemma ReportTotals(
    contradictions: seq<string>, total: nat, claims: seq<Claim>, say: Claim -> string, cap: nat, before: nat)
    requires Reports(contradictions, total, claims, say, cap, before) && cap < U32
    ensures var q, cost := Pick(Texts(claims, say), EstimateTokens, cap), Sum(contradictions, EstimateTokens);
            && Wraps(total, before + cost)
            && Wraps(q.total, cost) && q.total <= cap
            && (q.total == cost <==> NoOverflow(Texts(claims, say), EstimateTokens, cap))
  {
    var lines := Pick(Texts(claims, say), EstimateTokens, cap).selected;
    ReportedTotal(Texts(claims, say), EstimateTokens, cap);
    ModWraps(Sum(lines, EstimateTokens));
    LinesCost(lines);
  }

  /** Two totals kept modulo 2^32, and their sum. */
  lemma TotalOfBoth(total: nat, p: nat, items: nat, q: nat, lines: nat)
    requires Wraps(p, items) && Wraps(q, lines) && Wraps(total, p + lines)
    ensures total <= p + q
    ensures total == items + lines <==> p == items && q == lines && p + q < U32
  {
  }

  /** Sorting the lines does not change what they cost. */
  lemma LinesCost(lines: seq<string>)
    ensures Sum(Sort(lines, StrLe), EstimateTokens) == Sum(lines, EstimateTokens)
  {
    StrLeIsTotalPreorder();
    SortCorrect(lines, StrLe);
    SumPermutation(Sort(lines, StrLe), lines, EstimateTokens);
  }

  lemma SectionsCost(sections: Sectioned<Item>, selected: seq<Item>, required: seq<string>)
    requires LaidOut(sections, selected, Sectioner(required), required)
    ensures Sum(Flat(sections), Cost) == Sum(selected, Cost)
  {
    SectionsPartition(sections, selected, Sectioner(required), required);
    SumPermutation(Flat(sections), selected, Cost);
  }

  /** With the default budget for `M` tokens the bundle reports at most `M`, and the lines cannot
      overflow: the report is true exactly when the selection did not. */
  lemma DefaultBudgetHolds(
    bundle: Bundle, claims: seq<Claim>, ranked: seq<Item>, at: Addressing, maxTokens: nat, show: Json -> string)
    requires maxTokens < U32 && forall x | x in ranked :: Cost(x) < U32
    requires Assembled(bundle, claims, ranked, at, DefaultFor(maxTokens), show)
    ensures bundle.totalTokens <= maxTokens
    ensures (bundle.totalTokens == ItemTokens(Flat(bundle.sections)) + Sum(bundle.contradictions, EstimateTokens))
              <==> NoOverflow(ranked, Cost, DefaultFor(maxTokens).normal)
  {
    var budget := DefaultFor(maxTokens);
    var offered := Offered(claims, ranked, at, budget, show);
    DefaultWithinMax(maxTokens);
    TokensAreConserved(bundle, claims, ranked, at, budget, show);
    ReportedTotal(ranked, Cost, budget.normal);
    SmallCostsNeverOverflow(offered, EstimateTokens, budget.ConflictCap());
    ReportedTotal(offered, EstimateTokens, budget.ConflictCap());
  }

  lemma RankedIsAdmitted(items: seq<Item>, ceiling: DataClass, derive: Item -> string, x: Item)
    requires x in Ranked(items, ceiling, derive)
    ensures x.sensitivity in AdmittedBy(ceiling) && exists item :: item in items && x == Issue(item, derive)
  {
    RankedExact(items, ceiling, derive);
    var item :| item in items && Visible(item, ceiling) && x == Issue(item, derive);
    IssueExact(item, derive);
    CeilingAdmits(item.sensitivity, ceiling);
  }

  /** The sections share out the selected items; nothing above the ceiling is among them. */
  lemma SectionsAreTheSelection(
    bundle: Bundle, claims: seq<Claim>, items: seq<Item>, ceiling: DataClass, derive: Item -> string,
    budget: TokenBudget, show: Json -> string)
    requires Assembled(bundle, claims, Ranked(items, ceiling, derive), FactAddressOf, budget, show)
    ensures Distinct(Titles(bundle.sections))
    ensures multiset(Flat(bundle.sections)) == multiset(Pick(Ranked(items, ceiling, derive), Cost, budget.normal).selected)
    ensures forall x | x in Flat(bundle.sections) ::
              && x.sensitivity in AdmittedBy(ceiling)
              && exists item :: item in items && x == Issue(item, derive)
  {
    var ranked := Ranked(items, ceiling, derive);
    var p := Pick(ranked, Cost, budget.normal);
    TitlesAreTheNames(bundle.sections, p.selected, Sectioner(bundle.required), bundle.required);
    SectionsPartition(bundle.sections, p.selected, Sectioner(bundle.required), bundle.required);
    SameElements(Flat(bundle.sections), p.selected);
    PickPartitions(ranked, Cost, budget.normal);
    RankedExact(items, ceiling, derive);
    forall x | x in Flat(bundle.sections)
      ensures x.sensitivity in AdmittedBy(ceiling) && exists item :: item in items && x == Issue(item, derive)
    {
      assert x in multiset(p.selected) + multiset(p.dropped);
      RankedIsAdmitted(items, ceiling, derive, x);
    }
  }

  /** Whether a claim is disputed depends only on what the items state, so the detector sees
      exactly the disputes among the visible items, selected or not. */
  lemma DisputesAreTheVisibleOnes(
    bundle: Bundle, claims: seq<Claim>, items: seq<Item>, ceiling: DataClass, derive: Item -> string,
    budget: TokenBudget, show: Json -> string)
    requires Assembled(bundle, claims, Ranked(items, ceiling, derive), FactAddressOf, budget, show)
    ensures Distinct(claims)
    ensures forall c :: c in claims <==> Disputed(Shown(items, ceiling), FactAddressOf, c)
  {
    var ranked := Ranked(items, ceiling, derive);
    var p := Pick(ranked, Cost, budget.normal);
    var all, shown := p.selected + p.dropped, Shown(items, ceiling);
    PickPartitions(ranked, Cost, budget.normal);
    SameElements(all, ranked);
    PayloadsSurvive(items, ceiling, derive);
    AddressedByPayload();
    SamePayloadsSameDisputes(all, shown, FactAddressOf);
    SamePayloadsSameDisputes(shown, all, FactAddressOf);
  }

  /** Ranking and issuing ids leave the payloads as they were. */
  lemma PayloadsSurvive(items: seq<Item>, ceiling: DataClass, derive: Item -> string)
    ensures var ranked, shown := Ranked(items, ceiling, derive), Shown(items, ceiling);
            && (forall x | x in ranked :: exists y :: y in shown && y.payload == x.payload)
            && (forall y | y in shown :: exists x :: x in ranked && x.payload == y.payload)
  {
    var ranked, shown := Ranked(items, ceiling, derive), Shown(items, ceiling);
    RankedExact(items, ceiling, derive);
    forall x | x in ranked ensures exists y :: y in shown && y.payload == x.payload {
      var item :| item in items && Visible(item, ceiling) && x == Issue(item, derive);
      assert item in shown;
    }
    forall y | y in shown ensures exists x :: x in ranked && x.payload == y.payload {
      assert Issue(y, derive) in ranked;
    }
  }

  ghost predicate ByPayload(at: Addressing)
  {
    forall x: Item, y: Item, k: string | x.payload == y.payload :: at(x, k) == at(y, k)
  }

  lemma AddressedByPayload()
    ensures ByPayload(FactAddressOf)
  {
  }

  lemma SamePayloadsSameDisputes(xs: seq<Item>, ys: seq<Item>, at: Addressing)
    requires ByPayload(at) && forall x | x in xs :: exists y :: y in ys && y.payload == x.payload
    ensures forall c | Disputed(xs, at, c) :: Disputed(ys, at, c)
  {
    forall c | Disputed(xs, at, c) ensures Disputed(ys, at, c) {
      forall x, v | x in xs && States(x, at, c.address, c.attribute, v)
        ensures exists y :: y in ys && States(y, at, c.address, c.attribute, v)
      {
        var y :| y in ys && y.payload == x.payload;
        assert States(y, at, c.address, c.attribute, v);
      }
    }
  }

  /** Every disputed value has exactly one line in the bundle if and only if at no line the cost so
      far, as 32 bits hold it, exceeds the cap. Short of overflow that is: iff the cap covers the
      cost of all lines. A cap that covers them always suffices. */
  lemma EveryDisputedValueIsReported(
    bundle: Bundle, claims: seq<Claim>, ranked: seq<Item>, at: Addressing, budget: TokenBudget, show: Json -> string)
    requires Assembled(bundle, claims, ranked, at, budget, show) && budget.Valid()
    ensures var offered := Offered(claims, ranked, at, budget, show);
            var cap := budget.ConflictCap();
            && |offered| == |claims| && Sorted(bundle.contradictions, StrLe)
            && multiset(bundle.contradictions) <= multiset(offered)
            && (multiset(bundle.contradictions) == multiset(offered) <==>
                  PrefixesFit(offered, EstimateTokens, cap))
            && (Sum(offered, EstimateTokens) <= cap ==> multiset(bundle.contradictions) == multiset(offered))
            && (NoOverflow(offered, EstimateTokens, cap) ==>
                  (multiset(bundle.contradictions) == multiset(offered) <==> Sum(offered, EstimateTokens) <= cap))
  {
    var offered := Offered(claims, ranked, at, budget, show);
    var q := Pick(offered, EstimateTokens, budget.ConflictCap());
    StrLeIsTotalPreorder();
    SortCorrect(q.selected, StrLe);
    PickPartitions(offered, EstimateTokens, budget.ConflictCap());
    AllPickedIff(offered, EstimateTokens, budget.ConflictCap());
    CoveredIsPicked(offered, EstimateTokens, budget.ConflictCap());
  }

  /** How a contradiction line reads: it names the source of the first item, selected before dropped,
      that states the value at the address, then the value, then the attribute. */
  ghost predicate ReadsAs(line: string, items: seq<Item>, at: Addressing, c: Claim, show: Json -> string)
  {
    exists i :: FirstToState(items, at, c, i) &&
      line == "source " + items[i].source + " says value " + show(c.value) + " for " + c.attribute
  }

  lemma WordingReads(items: seq<Item>, at: Addressing, c: Claim, show: Json -> string)
    requires Disputed(items, at, c)
    ensures ReadsAs(Wording(items, at, show)(c), items, at, c, show)
  {
    SourceIffStated(items, at, c);
    var s := SourceFor(items, at, c).value;
    SourceExact(items, at, c, s);
    var i :| FirstToState(items, at, c, i) && items[i].source == s;
    LineReads(s, show(c.value), c.attribute);
  }

  lemma LineReads(source: string, value: string, attribute: string)
    ensures Line(Some(source), value, attribute) == "source " + source + " says value " + value + " for " + attribute
  {
  }

  /** Every line of a bundle is about one disputed value and names who first stated it. */
  lemma LinesAreTrue(
    bundle: Bundle, claims: seq<Claim>, ranked: seq<Item>, at: Addressing, budget: TokenBudget, show: Json -> string,
    line: string)
    requires Assembled(bundle, claims, ranked, at, budget, show) && line in bundle.contradictions
    ensures var p := Pick(ranked, Cost, budget.normal);
            TrueLine(line, p.selected + p.dropped, at, show)
  {
    var p := Pick(ranked, Cost, budget.normal);
    var all := p.selected + p.dropped;
    ReportedLineIsTrue(bundle.contradictions, bundle.totalTokens, claims, all, at, show, budget.ConflictCap(), p.total, line);
  }

  ghost predicate TrueLine(line: string, items: seq<Item>, at: Addressing, show: Json -> string)
  {
    exists c :: Disputed(items, at, c) && ReadsAs(line, items, at, c, show)
  }

  lemma ReportedLineIsTrue(
    contradictions: seq<string>, total: nat, claims: seq<Claim>, items: seq<Item>, at: Addressing, show: Json -> string,
    cap: nat, before: nat, line: string)
    requires AllDisputes(claims, items, at) && line in contradictions
    requires Reports(contradictions, total, claims, Wording(items, at, show), cap, before)
    ensures TrueLine(line, items, at, show)
  {
    var c := LineIsOffered(contradictions, claims, Wording(items, at, show), cap, line);
    assert c in claims;
    WordingReads(items, at, c, show);
  }

  lemma LineIsOffered(
    contradictions: seq<string>, claims: seq<Claim>, say: Claim -> string, cap: nat, line: string) returns (c: Claim)
    requires contradictions == Sort(Pick(Texts(claims, say), EstimateTokens, cap).selected, StrLe) && line in contradictions
    ensures c in claims && say(c) == line
  {
    var offered := Texts(claims, say);
    var q := Pick(offered, EstimateTokens, cap);
    StrLeIsTotalPreorder();
    SortCorrect(q.selected, StrLe);
    SameElements(contradictions, q.selected);
    PickPartitions(offered, EstimateTokens, cap);
    CountsElements(q.selected, line);
    CountsElements(offered, line);
    var i :| 0 <= i < |offered| && offered[i] == line;
    c := claims[i];
  }

  /** Each section is exactly the subsequence of the selected items that belong to it. */
  lemma SectionsHoldTheirItems(
    bundle: Bundle, claims: seq<Claim>, ranked: seq<Item>, at: Addressing, budget: TokenBudget, show: Json -> string,
    i: nat)
    requires Assembled(bundle, claims, ranked, at, budget, show) && i < |bundle.sections|
    ensures var s := bundle.sections[i];
            && s.1 == Filter(Pick(ranked, Cost, budget.normal).selected, x => SectionOf(x, bundle.required) == s.0)
            && s.1 != [] && forall x | x in s.1 :: SectionOf(x, bundle.required) == s.0
  {
    var s := bundle.sections[i];
    var selected := Pick(ranked, Cost, budget.normal).selected;
    assert s in bundle.sections;
    PartIs(selected, Sectioner(bundle.required), s.0, x => SectionOf(x, bundle.required) == s.0);
  }
}
