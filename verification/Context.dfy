/** Context items, the order they compete in, and contradictions among the facts they state. */
module Context {
  import opened Prelude
  import opened Values

  datatype DataClass = Public | Internal | Confidential | Restricted
  {
    function Rank(): nat { if Public? then 0 else if Internal? then 1 else if Confidential? then 2 else 3 }
  }

  datatype Authority =
    | ApprovedStandard | ReleasedEngineeringRecord | TransactionalState | ApprovedCorrectiveAction
    | VerifiedObservation | EmployeeNote | AiInference
  {
    function Rank(): nat
    {
      match this
      case ApprovedStandard => 0
      case ReleasedEngineeringRecord => 1
      case TransactionalState => 2
      case ApprovedCorrectiveAction => 3
      case VerifiedObservation => 4
      case EmployeeNote => 5
      case AiInference => 6
    }
  }

  const HIERARCHY: seq<Authority> := [
    ApprovedStandard, ReleasedEngineeringRecord, TransactionalState, ApprovedCorrectiveAction,
    VerifiedObservation, EmployeeNote, AiInference]

  /** Authority goes down the hierarchy: an AI inference never outranks anything. */
  lemma HierarchyIsRank(a: Authority)
    ensures a.Rank() < |HIERARCHY| && HIERARCHY[a.Rank()] == a
    ensures a.Rank() <= AiInference.Rank() && (a.Rank() == AiInference.Rank() <==> a == AiInference)
  {
  }

  /** Up to which class a ceiling admits. */
  function AdmittedBy(ceiling: DataClass): set<DataClass>
  {
    match ceiling
    case Public => {Public}
    case Internal => {Public, Internal}
    case Confidential => {Public, Internal, Confidential}
    case Restricted => {Public, Internal, Confidential, Restricted}
  }

  lemma CeilingAdmits(c: DataClass, ceiling: DataClass)
    ensures c.Rank() <= ceiling.Rank() <==> c in AdmittedBy(ceiling)
  {
  }

  datatype Item = Item(
    payload: Json, source: string, observedAt: Option<int>, authority: Authority,
    sensitivity: DataClass, tokenCost: nat, evidenceId: string)

  // ---- the greedy order --------------------------------------------------------------

  /** Most recent first, undated last. */
  predicate NotOlder(a: Option<int>, b: Option<int>) { b.None? || (a.Some? && b.value <= a.value) }

  /** Highest authority, then most recent, then source name. */
  predicate Priority(a: Item, b: Item)
  {
    || a.authority.Rank() < b.authority.Rank()
    || (a.authority.Rank() == b.authority.Rank() &&
          if a.observedAt == b.observedAt then StrLe(a.source, b.source)
          else NotOlder(a.observedAt, b.observedAt))
  }

  lemma PriorityIsTotal()
    ensures TotalPreorder(Priority)
  {
    forall a: Item, b: Item ensures Priority(a, b) || Priority(b, a) { StrLeTotal(a.source, b.source); }
    forall a: Item, b: Item, c: Item | Priority(a, b) && Priority(b, c) ensures Priority(a, c) {
      if StrLe(a.source, b.source) && StrLe(b.source, c.source) { StrLeTransitive(a.source, b.source, c.source); }
    }
  }

  /** Nothing in the order tells these items apart. */
  predicate Tied(a: Item, b: Item) { a.authority == b.authority && a.observedAt == b.observedAt && a.source == b.source }

  lemma TiesAgree(a: Item, b: Item)
    ensures Tied(a, b) <==> Priority(a, b) && Priority(b, a)
  {
    StrLeTotal(a.source, b.source);
  }

  /** Higher authority first; at equal authority the newer, an undated one last; at equal dates
      the lesser source name. */
  lemma PriorityMeans(a: Item, b: Item)
    ensures Priority(a, b) <==>
      && a.authority.Rank() <= b.authority.Rank()
      && (a.authority == b.authority && b.observedAt.Some? ==>
            a.observedAt.Some? && b.observedAt.value <= a.observedAt.value)
      && (a.authority == b.authority && a.observedAt == b.observedAt ==> StrLe(a.source, b.source))
  {
  }

  // ---- fact addresses ------------------------------------------------------------------

  datatype FactAddress = FactAddress(objectType: string, objectId: string, attribute: string, validTime: Option<string>)

  /** The address an item states `attribute` at: its `_fact_address` block, else its `id`. */
  function FactAddressOf(item: Item, attribute: string): Option<FactAddress>
  {
    var block := Get(item.payload, "_fact_address");
    var inner := (field: string) => if block.Some? then AsStr(Get(block.value, field)) else None;
    var id := if inner("object_id").Some? then inner("object_id") else AsStr(Get(item.payload, "id"));
    if id.None? then None
    else
      var kind := inner("object_type");
      Some(FactAddress(if kind.Some? then kind.value else "unknown", id.value, attribute, inner("valid_time")))
  }

  /** The text at the end of a path of object fields. */
  function TextAt(v: Json, path: seq<string>): Option<string>
  {
    if path == [] then AsStr(Some(v))
    else if Get(v, path[0]).Some? then TextAt(Get(v, path[0]).value, path[1..])
    else None
  }

  /** Which object an item is about: the block's id before the item's own. */
  function Identity(item: Item): Option<string>
  {
    var id := TextAt(item.payload, ["_fact_address", "object_id"]);
    if id.Some? then id else TextAt(item.payload, ["id"])
  }

  function KindOf(item: Item): string
  {
    var kind := TextAt(item.payload, ["_fact_address", "object_type"]);
    if kind.Some? then kind.value else "unknown"
  }

  function ValidTimeOf(item: Item): Option<string> { TextAt(item.payload, ["_fact_address", "valid_time"]) }

  /** An item has an address iff it has an identity; the rest is kind, attribute and validity time. */
  lemma FactAddressExact(item: Item, attribute: string, a: FactAddress)
    ensures FactAddressOf(item, attribute) == Some(a) <==>
              && Identity(item) == Some(a.objectId) && a.objectType == KindOf(item)
              && a.attribute == attribute && a.validTime == ValidTimeOf(item)
  {
    PathOfTwo(item.payload, "_fact_address", "object_id");
    PathOfTwo(item.payload, "_fact_address", "object_type");
    PathOfTwo(item.payload, "_fact_address", "valid_time");
    PathOfOne(item.payload, "id");
  }

  lemma PathOfOne(v: Json, field: string)
    ensures TextAt(v, [field]) == AsStr(Get(v, field))
  {
    assert [field][1..] == [];
  }

  lemma PathOfTwo(v: Json, outer: string, inner: string)
    ensures TextAt(v, [outer, inner])
         == if Get(v, outer).Some? then AsStr(Get(Get(v, outer).value, inner)) else None
  {
    assert [outer, inner][1..] == [inner];
    if Get(v, outer).Some? { PathOfOne(Get(v, outer).value, inner); }
  }

  /** How items are addressed; contradiction detection does not depend on the details. */
  type Addressing = (Item, string) -> Option<FactAddress>

  predicate States(item: Item, at: Addressing, a: FactAddress, attribute: string, v: Json)
  {
    at(item, attribute) == Some(a) && Get(item.payload, attribute) == Some(v)
  }

  /** The distinct values stated at an address, in order of first appearance. */
  function ValuesAt(items: seq<Item>, at: Addressing, attribute: string, a: FactAddress): seq<Json>
  {
    if items == [] then []
    else
      var before := ValuesAt(items[..|items| - 1], at, attribute, a);
      var item := items[|items| - 1];
      var v := Get(item.payload, attribute);
      if at(item, attribute) == Some(a) && v.Some? && v.value !in before then before + [v.value] else before
  }

  lemma {:induction false} ValuesAtExact(items: seq<Item>, at: Addressing, attribute: string, a: FactAddress)
    ensures var vs := ValuesAt(items, at, attribute, a);
            && Distinct(vs)
            && forall v :: v in vs <==> exists item :: item in items && States(item, at, a, attribute, v)
  {
    if items != [] {
      var init, last := items[..|items| - 1], items[|items| - 1];
      ValuesAtExact(init, at, attribute, a);
      assert items == init + [last];
      var vs := ValuesAt(items, at, attribute, a);
      forall v ensures v in vs <==> exists item :: item in items && States(item, at, a, attribute, v) {
        if v in vs && v !in ValuesAt(init, at, attribute, a) {
          assert States(last, at, a, attribute, v) && last in items;
        }
        if v in ValuesAt(init, at, attribute, a) {
          var item :| item in init && States(item, at, a, attribute, v);
          assert item in items;
        }
        if exists item :: item in items && States(item, at, a, attribute, v) {
          var item :| item in items && States(item, at, a, attribute, v);
          assert item in init || item == last;
        }
      }
    }
  }

  /** Some item states `v` at the address, and none up to it states `w`. */
  ghost predicate StatedBefore(items: seq<Item>, at: Addressing, attribute: string, a: FactAddress, v: Json, w: Json)
  {
    exists m :: 0 <= m < |items| && States(items[m], at, a, attribute, v)
                && forall n | 0 <= n <= m :: !States(items[n], at, a, attribute, w)
  }

  /** The values come in the order in which they are first stated. */
  lemma {:induction false} ValuesInOrder(items: seq<Item>, at: Addressing, attribute: string, a: FactAddress, i: nat, j: nat)
    requires i < j < |ValuesAt(items, at, attribute, a)|
    ensures StatedBefore(items, at, attribute, a, ValuesAt(items, at, attribute, a)[i], ValuesAt(items, at, attribute, a)[j])
  {
    var init := items[..|items| - 1];
    var vs, before := ValuesAt(items, at, attribute, a), ValuesAt(init, at, attribute, a);
    if j < |before| {
      ValuesInOrder(init, at, attribute, a, i, j);
      var m :| 0 <= m < |init| && States(init[m], at, a, attribute, vs[i])
        && forall n | 0 <= n <= m :: !States(init[n], at, a, attribute, vs[j]);
      assert forall n | 0 <= n <= m :: items[n] == init[n];
    } else {
      ValuesAtExact(init, at, attribute, a);
      assert vs[i] in before && vs[j] !in before;
      var x :| x in init && States(x, at, a, attribute, vs[i]);
      var m :| 0 <= m < |init| && init[m] == x;
      assert forall n | 0 <= n <= m :: items[n] == init[n] && init[n] in init;
    }
  }

  /** Two items at one address disagree. */
  ghost predicate Contradicted(items: seq<Item>, at: Addressing, attribute: string, a: FactAddress)
  {
    exists x, y, v, w ::
      && x in items && y in items && v != w
      && States(x, at, a, attribute, v) && States(y, at, a, attribute, w)
  }

  lemma ManyValuesIffContradicted(items: seq<Item>, at: Addressing, attribute: string, a: FactAddress)
    ensures |ValuesAt(items, at, attribute, a)| > 1 <==> Contradicted(items, at, attribute, a)
  {
    var vs := ValuesAt(items, at, attribute, a);
    ValuesAtExact(items, at, attribute, a);
    if |vs| > 1 {
      assert vs[0] in vs && vs[1] in vs;
      var x :| x in items && States(x, at, a, attribute, vs[0]);
      var y :| y in items && States(y, at, a, attribute, vs[1]);
    }
    if Contradicted(items, at, attribute, a) {
      var x, y, v, w :|
        && x in items && y in items && v != w
        && States(x, at, a, attribute, v) && States(y, at, a, attribute, w);
      assert v in vs && w in vs;
    }
  }

  // ---- detection --------------------------------------------------------------------------

  /** Object type, object id, attribute; addresses that differ only in time tie. */
  predicate AddressesLe(a: FactAddress, b: FactAddress)
  {
    if a.objectType != b.objectType then StrLe(a.objectType, b.objectType)
    else if a.objectId != b.objectId then StrLe(a.objectId, b.objectId)
    else StrLe(a.attribute, b.attribute)
  }

  predicate AddressLe(p: (FactAddress, seq<Json>), q: (FactAddress, seq<Json>)) { AddressesLe(p.0, q.0) }

  lemma AddressesLeMeans(a: FactAddress, b: FactAddress)
    ensures AddressesLe(a, b) <==>
      && StrLe(a.objectType, b.objectType)
      && (a.objectType == b.objectType ==> StrLe(a.objectId, b.objectId))
      && (a.objectType == b.objectType && a.objectId == b.objectId ==> StrLe(a.attribute, b.attribute))
  {
    StrLeTotal(a.objectType, a.objectType);
    StrLeTotal(a.objectId, a.objectId);
  }

  lemma AddressLeIsTotal()
    ensures TotalPreorder(AddressLe)
  {
    forall p, q ensures AddressLe(p, q) || AddressLe(q, p) {
      StrLeTotal(p.0.objectType, q.0.objectType);
      StrLeTotal(p.0.objectId, q.0.objectId);
      StrLeTotal(p.0.attribute, q.0.attribute);
    }
    forall p, q, r | AddressLe(p, q) && AddressLe(q, r) ensures AddressLe(p, r) { AddressLeTransitive(p, q, r); }
  }

  lemma AddressLeTransitive(p: (FactAddress, seq<Json>), q: (FactAddress, seq<Json>), r: (FactAddress, seq<Json>))
    requires AddressLe(p, q) && AddressLe(q, r)
    ensures AddressLe(p, r)
  {
    var (a, b, c) := (p.0, q.0, r.0);
    if StrLe(a.objectType, b.objectType) && StrLe(b.objectType, c.objectType) {
      StrLeTransitive(a.objectType, b.objectType, c.objectType);
    }
    if StrLe(a.objectId, b.objectId) && StrLe(b.objectId, c.objectId) {
      StrLeTransitive(a.objectId, b.objectId, c.objectId);
    }
    if StrLe(a.attribute, b.attribute) && StrLe(b.attribute, c.attribute) {
      StrLeTransitive(a.attribute, b.attribute, c.attribute);
    }
    StrLeTotal(a.objectType, b.objectType);
    StrLeTotal(a.objectId, b.objectId);
  }

  /** The hash map of the first loop: every address that is stated, with its distinct values. */
  method GroupValues(items: seq<Item>, at: Addressing, attribute: string) returns (groups: map<FactAddress, seq<Json>>)
    ensures Grouped(groups, items, at, attribute)
  {
    groups := map[];
    for i := 0 to |items|
      invariant Grouped(groups, items[..i], at, attribute)
    {
      GroupStep(groups, items, i, at, attribute);
      var address := at(items[i], attribute);
      var value := Get(items[i].payload, attribute);
      if address.Some? && value.Some? {
        var values := if address.value in groups then groups[address.value] else [];
        if value.value !in values { values := values + [value.value]; }
        groups := groups[address.value := values];
      }
    }
    assert items[..|items|] == items;
  }

  ghost predicate Grouped(groups: map<FactAddress, seq<Json>>, items: seq<Item>, at: Addressing, attribute: string)
  {
    forall a :: At(groups, a) == SomeIfAny(ValuesAt(items, at, attribute, a))
  }

  function SomeIfAny<T>(vs: seq<T>): Option<seq<T>> { if vs == [] then None else Some(vs) }

  lemma GroupStep(groups: map<FactAddress, seq<Json>>, items: seq<Item>, i: nat, at: Addressing, attribute: string)
    requires i < |items| && Grouped(groups, items[..i], at, attribute)
    ensures var address := at(items[i], attribute);
            var value := Get(items[i].payload, attribute);
            if address.Some? && value.Some? then
              var values := if address.value in groups then groups[address.value] else [];
              Grouped(groups[address.value := if value.value in values then values else values + [value.value]],
                      items[..i + 1], at, attribute)
            else Grouped(groups, items[..i + 1], at, attribute)
  {
    assert items[..i + 1][..i] == items[..i];
    var address := at(items[i], attribute);
    var value := Get(items[i].payload, attribute);
    if address.Some? && value.Some? {
      var values := if address.value in groups then groups[address.value] else [];
      assert At(groups, address.value) == SomeIfAny(ValuesAt(items[..i], at, attribute, address.value));
      var grown := if value.value in values then values else values + [value.value];
      var after := groups[address.value := grown];
      forall a ensures At(after, a) == SomeIfAny(ValuesAt(items[..i + 1], at, attribute, a)) {
        assert At(groups, a) == SomeIfAny(ValuesAt(items[..i], at, attribute, a));
      }
    } else {
      forall a ensures At(groups, a) == SomeIfAny(ValuesAt(items[..i + 1], at, attribute, a)) {
        assert At(groups, a) == SomeIfAny(ValuesAt(items[..i], at, attribute, a));
      }
    }
  }

  type Candidates = seq<(FactAddress, seq<Json>)>

  /** Exactly the contradicted addresses, each once, with all its distinct values. */
  ghost predicate Exact(cs: Candidates, items: seq<Item>, at: Addressing, attribute: string)
  {
    && (forall i, j | 0 <= i < j < |cs| :: cs[i].0 != cs[j].0)
    && (forall c | c in cs :: c.1 == ValuesAt(items, at, attribute, c.0) && Contradicted(items, at, attribute, c.0))
    && (forall a | Contradicted(items, at, attribute, a) :: (a, ValuesAt(items, at, attribute, a)) in cs)
  }

  /** `contradiction_candidates`; the hash map hands out its groups in any order. */
  method ContradictionCandidates(items: seq<Item>, at: Addressing, attribute: string) returns (cs: Candidates)
    ensures Exact(cs, items, at, attribute)
    ensures Sorted(cs, AddressLe)
  {
    var groups := GroupValues(items, at, attribute);
    var found := ManyValued(groups);
    AddressLeIsTotal();
    SortCorrect(found, AddressLe);
    cs := Sort(found, AddressLe);
    SameElements(cs, found);
    PermutationDistinct(found, cs);
    forall i, j | 0 <= i < j < |cs| ensures cs[i].0 != cs[j].0 {
      assert cs[i] in found && cs[j] in found;
      assert cs[i] == (cs[i].0, groups[cs[i].0]) && cs[j] == (cs[j].0, groups[cs[j].0]);
    }
    forall a ensures At(groups, a).Some? && |groups[a]| > 1 <==> Contradicted(items, at, attribute, a) {
      ManyValuesIffContradicted(items, at, attribute, a);
      assert At(groups, a) == SomeIfAny(ValuesAt(items, at, attribute, a));
    }
    forall c | c in cs
      ensures c.1 == ValuesAt(items, at, attribute, c.0) && Contradicted(items, at, attribute, c.0)
    {
      assert At(groups, c.0) == SomeIfAny(ValuesAt(items, at, attribute, c.0));
    }
    forall a | Contradicted(items, at, attribute, a) ensures (a, ValuesAt(items, at, attribute, a)) in cs {
      assert At(groups, a).Some? && |groups[a]| > 1;
    }
  }

  method ManyValued(groups: map<FactAddress, seq<Json>>) returns (found: Candidates)
    ensures forall c :: c in found <==> c.0 in groups && groups[c.0] == c.1 && |c.1| > 1
    ensures Distinct(found)
  {
    found := [];
    var todo := groups.Keys;
    while todo != {}
      invariant todo <= groups.Keys
      invariant forall c :: c in found <==> c.0 in groups && c.0 !in todo && groups[c.0] == c.1 && |c.1| > 1
      invariant Distinct(found)
      decreases todo
    {
      var a :| a in todo;
      if |groups[a]| > 1 {
        assert (a, groups[a]) !in found;
        found := found + [(a, groups[a])];
      }
      todo := todo - {a};
    }
  }

  // ---- in the items' own terms ------------------------------------------------------------

  /** Two items state unequal values of the attribute for one object, kind and validity time. */
  predicate Disagree(x: Item, y: Item, attribute: string)
  {
    var v, w := Get(x.payload, attribute), Get(y.payload, attribute);
    && v.Some? && w.Some? && v != w
    && Identity(x).Some? && Identity(x) == Identity(y) && KindOf(x) == KindOf(y) && ValidTimeOf(x) == ValidTimeOf(y)
  }

  lemma DisagreeMeansOneAddress(x: Item, y: Item, attribute: string)
    ensures Disagree(x, y, attribute) <==>
              && Get(x.payload, attribute).Some? && Get(y.payload, attribute).Some?
              && Get(x.payload, attribute) != Get(y.payload, attribute)
              && FactAddressOf(x, attribute).Some? && FactAddressOf(x, attribute) == FactAddressOf(y, attribute)
  {
    AddressByParts(x, attribute);
    AddressByParts(y, attribute);
  }

  lemma AddressByParts(x: Item, attribute: string)
    ensures FactAddressOf(x, attribute) ==
      if Identity(x).None? then None
      else Some(FactAddress(KindOf(x), Identity(x).value, attribute, ValidTimeOf(x)))
  {
    if FactAddressOf(x, attribute).Some? { FactAddressExact(x, attribute, FactAddressOf(x, attribute).value); }
    if Identity(x).Some? {
      FactAddressExact(x, attribute, FactAddress(KindOf(x), Identity(x).value, attribute, ValidTimeOf(x)));
    }
  }

  ghost predicate AnyDisagree(items: seq<Item>, attribute: string)
  {
    exists x, y :: x in items && y in items && Disagree(x, y, attribute)
  }

  lemma ContradictedIffDisagree(items: seq<Item>, attribute: string)
    ensures (exists a :: Contradicted(items, FactAddressOf, attribute, a)) <==> AnyDisagree(items, attribute)
  {
    if a :| Contradicted(items, FactAddressOf, attribute, a) {
      var x, y, v, w :|
        && x in items && y in items && v != w
        && States(x, FactAddressOf, a, attribute, v) && States(y, FactAddressOf, a, attribute, w);
      DisagreeMeansOneAddress(x, y, attribute);
    }
    if AnyDisagree(items, attribute) {
      var x, y :| x in items && y in items && Disagree(x, y, attribute);
      DisagreeMeansOneAddress(x, y, attribute);
      var a := FactAddressOf(x, attribute).value;
      assert States(x, FactAddressOf, a, attribute, Get(x.payload, attribute).value);
      assert States(y, FactAddressOf, a, attribute, Get(y.payload, attribute).value);
      assert Contradicted(items, FactAddressOf, attribute, a);
    }
  }

  /** `has_contradiction`: two different objects, or two validity times, never contradict. */
  method HasContradiction(items: seq<Item>, attribute: string) returns (found: bool)
    ensures found <==> AnyDisagree(items, attribute)
  {
    var cs := ContradictionCandidates(items, FactAddressOf, attribute);
    ContradictedIffDisagree(items, attribute);
    if cs != [] { assert cs[0] in cs; }
    found := cs != [];
  }
}
