/** `BoundedMap`: a hash map and an insertion queue that together are a FIFO association list. */
module BoundedMaps {
  import opened Prelude

  /** Oldest entry first. */
  type Assoc<V> = seq<(string, V)>

  predicate Has<V>(a: Assoc<V>, k: string) { exists i :: 0 <= i < |a| && a[i].0 == k }

  predicate DistinctKeys<V>(a: Assoc<V>) { forall i, j :: 0 <= i < j < |a| ==> a[i].0 != a[j].0 }

  function Lookup<V>(a: Assoc<V>, k: string): (r: Option<V>)
    ensures r.Some? <==> Has(a, k)
  {
    if a == [] then None
    else if a[0].0 == k then Some(a[0].1)
    else
      var r := Lookup(a[1..], k);
      assert Has(a[1..], k) ==> Has(a, k);
      assert forall i | 0 < i < |a| && a[i].0 == k :: a[1..][i - 1].0 == k;
      r
  }

  /** A present key keeps its place in line. */
  function Overwrite<V>(a: Assoc<V>, k: string, v: V): Assoc<V>
  {
    seq(|a|, i requires 0 <= i < |a| => if a[i].0 == k then (k, v) else a[i])
  }

  /** The oldest entries go first. */
  function Trim<V>(a: Assoc<V>, capacity: nat): Assoc<V>
  {
    if |a| <= capacity then a else Trim(a[1..], capacity)
  }

  function Put<V>(a: Assoc<V>, k: string, v: V, capacity: nat): Assoc<V>
  {
    if Has(a, k) then Overwrite(a, k, v) else Trim(a + [(k, v)], capacity)
  }

  function Without<V>(a: Assoc<V>, k: string): Assoc<V> { Filter(a, (e: (string, V)) => e.0 != k) }

  // ---- the two structures kept in step ------------------------------------------

  class BoundedMap<V> {
    var entries: map<string, V>
    var order: seq<string>
    const capacity: nat

    ghost predicate Valid()
      reads this
    {
      && 1 <= capacity && |order| <= capacity
      && (forall k :: k in order <==> k in entries)
      && (forall i, j :: 0 <= i < j < |order| ==> order[i] != order[j])
    }

    ghost function Contents(): (a: Assoc<V>)
      requires Valid()
      reads this
      ensures DistinctKeys(a)
      ensures |a| == |order| && forall i | 0 <= i < |a| :: a[i] == (order[i], entries[order[i]])
    {
      Listed(order, entries)
    }

    constructor (capacity: nat)
      ensures Valid() && Contents() == [] && this.capacity == if capacity == 0 then 1 else capacity
    {
      this.capacity := if capacity == 0 then 1 else capacity;
      entries, order := map[], [];
    }

    method Get(key: string) returns (r: Option<V>)
      requires Valid()
      ensures r == Lookup(Contents(), key)
    {
      r := if key in entries then Some(entries[key]) else None;
      LookupListed(order, entries, key);
    }

    method Insert(key: string, value: V)
      requires Valid()
      modifies this
      ensures Valid() && Contents() == Put(old(Contents()), key, value, capacity)
    {
      ghost var before := Contents();
      HasListed(order, entries, key);
      if key in entries {
        entries := entries[key := value];
        assert Contents() == Overwrite(before, key, value);
        return;
      }
      entries := entries[key := value];
      order := order + [key];
      ghost var grown := before + [(key, value)];
      assert Listed(order, entries) == grown;
      while |order| > capacity
        invariant |order| <= capacity + 1
        invariant forall k :: k in order <==> k in entries
        invariant forall i, j :: 0 <= i < j < |order| ==> order[i] != order[j]
        invariant Trim(Listed(order, entries), capacity) == Trim(grown, capacity)
      {
        var evicted := order[0];
        EvictFirst(order, entries);
        order := order[1..];
        entries := map k | k in entries && k != evicted :: entries[k];
      }
    }

    method Remove(key: string)
      requires Valid()
      modifies this
      ensures Valid() && Contents() == Without(old(Contents()), key)
    {
      RetainListed(order, entries, key);
      entries := map k | k in entries && k != key :: entries[k];
      order := Filter(order, k => k != key);
    }
  }

  ghost function Listed<V>(order: seq<string>, entries: map<string, V>): (a: Assoc<V>)
    requires forall k | k in order :: k in entries
    ensures |a| == |order| && forall i | 0 <= i < |a| :: a[i] == (order[i], entries[order[i]])
  {
    seq(|order|, i requires 0 <= i < |order| => (order[i], entries[order[i]]))
  }

  /** Popping the queue and removing that key is dropping the oldest entry. */
  lemma EvictFirst<V>(order: seq<string>, entries: map<string, V>)
    requires order != [] && (forall k :: k in order <==> k in entries)
    requires forall i, j :: 0 <= i < j < |order| ==> order[i] != order[j]
    ensures var left := map k | k in entries && k != order[0] :: entries[k];
            && (forall k :: k in order[1..] <==> k in left)
            && (forall i, j :: 0 <= i < j < |order[1..]| ==> order[1..][i] != order[1..][j])
            && Listed(order[1..], left) == Listed(order, entries)[1..]
  {
    var rest := order[1..];
    forall k | k in rest ensures k != order[0] && k in entries {
      var i :| 0 <= i < |rest| && rest[i] == k;
      assert order[i + 1] == k;
    }
    forall k | k in entries && k != order[0] ensures k in rest {
      var i :| 0 <= i < |order| && order[i] == k;
      assert rest[i - 1] == k;
    }
    forall i, j | 0 <= i < j < |rest| ensures rest[i] != rest[j] { assert order[i + 1] == rest[i] && order[j + 1] == rest[j]; }
  }

  /** `VecDeque::retain` on the queue is removal from the association list. */
  lemma {:induction false} RetainListed<V>(order: seq<string>, entries: map<string, V>, key: string)
    requires forall k | k in order :: k in entries
    requires forall i, j :: 0 <= i < j < |order| ==> order[i] != order[j]
    ensures var kept := Filter(order, k => k != key);
            && (forall i, j :: 0 <= i < j < |kept| ==> kept[i] != kept[j])
            && Listed(kept, map k | k in entries && k != key :: entries[k]) == Without(Listed(order, entries), key)
  {
    if order != [] {
      var k, tail := order[0], order[1..];
      forall i, j | 0 <= i < j < |tail| ensures tail[i] != tail[j] { assert tail[i] == order[i + 1] && tail[j] == order[j + 1]; }
      RetainListed(tail, entries, key);
      assert Listed(order, entries)[1..] == Listed(tail, entries);
      var rest := Filter(tail, k => k != key);
      assert k !in tail;
      if k != key { ListedHead(k, rest, map k | k in entries && k != key :: entries[k]); }
    }
  }

  lemma ListedHead<V>(k: string, rest: seq<string>, entries: map<string, V>)
    requires k in entries && forall k | k in rest :: k in entries
    ensures Listed([k] + rest, entries) == [(k, entries[k])] + Listed(rest, entries)
  {
  }

  lemma HasListed<V>(order: seq<string>, entries: map<string, V>, k: string)
    requires forall k :: k in order <==> k in entries
    ensures Has(Listed(order, entries), k) <==> k in entries
  {
    var a := Listed(order, entries);
    if k in entries {
      var i :| 0 <= i < |order| && order[i] == k;
      assert a[i].0 == k;
    }
  }

  lemma {:induction false} LookupListed<V>(order: seq<string>, entries: map<string, V>, k: string)
    requires forall k | k in order :: k in entries
    requires k in entries ==> k in order
    ensures Lookup(Listed(order, entries), k) == if k in entries then Some(entries[k]) else None
  {
    if order != [] && order[0] != k {
      assert Listed(order, entries)[1..] == Listed(order[1..], entries);
      if k in entries {
        LookupListed(order[1..], entries, k);
      } else {
        LookupListed(order[1..], entries, k);
      }
    }
  }

  // ---- whole runs ------------------------------------------------------------------

  datatype Op<V> = Ins(key: string, value: V) | Rem(key: string)

  function Do<V>(a: Assoc<V>, op: Op<V>, capacity: nat): Assoc<V>
  {
    match op
    case Ins(k, v) => Put(a, k, v, capacity)
    case Rem(k) => Without(a, k)
  }

  function RunOps<V>(a: Assoc<V>, ops: seq<Op<V>>, capacity: nat): Assoc<V>
    decreases |ops|
  {
    if ops == [] then a else RunOps(Do(a, ops[0], capacity), ops[1..], capacity)
  }

  /** How many of the inserts bring a key that is not there at the time. */
  function NewKeys<V>(a: Assoc<V>, ops: seq<Op<V>>, capacity: nat): nat
    decreases |ops|
  {
    if ops == [] then 0
    else (if ops[0].Ins? && !Has(a, ops[0].key) then 1 else 0) + NewKeys(Do(a, ops[0], capacity), ops[1..], capacity)
  }

  /** How many entries are younger than `k`. */
  function Younger<V>(a: Assoc<V>, k: string): nat
    requires Has(a, k)
  {
    if a[0].0 == k then |a| - 1 else
    HasTail(a, k);
    Younger(a[1..], k)
  }

  lemma HasTail<V>(a: Assoc<V>, k: string)
    requires a != [] && a[0].0 != k
    ensures Has(a, k) <==> Has(a[1..], k)
  {
    if Has(a, k) {
      var i :| 0 <= i < |a| && a[i].0 == k;
      assert a[1..][i - 1].0 == k;
    }
  }

  lemma HasAppend<V>(a: Assoc<V>, e: (string, V), k: string)
    ensures Has(a + [e], k) <==> Has(a, k) || e.0 == k
  {
    if Has(a, k) {
      var i :| 0 <= i < |a| && a[i].0 == k;
      assert (a + [e])[i].0 == k;
    }
    if e.0 == k { assert (a + [e])[|a|].0 == k; }
  }

  lemma {:induction false} YoungerAppend<V>(a: Assoc<V>, e: (string, V), k: string)
    requires Has(a, k)
    ensures Has(a + [e], k) && Younger(a + [e], k) == Younger(a, k) + 1
  {
    HasAppend(a, e, k);
    if a[0].0 != k {
      HasTail(a, k);
      assert (a + [e])[1..] == a[1..] + [e];
      YoungerAppend(a[1..], e, k);
    }
  }

  lemma {:induction false} TrimExact<V>(a: Assoc<V>, k: string, capacity: nat)
    requires DistinctKeys(a) && Has(a, k)
    ensures Has(Trim(a, capacity), k) <==> Younger(a, k) < capacity
    ensures Has(Trim(a, capacity), k) ==> Younger(Trim(a, capacity), k) == Younger(a, k)
    ensures DistinctKeys(Trim(a, capacity)) && |Trim(a, capacity)| <= capacity
  {
    if |a| > capacity {
      if a[0].0 == k {
        assert !Has(a[1..], k);
        TrimOnlyDrops(a[1..], k, capacity);
      } else {
        HasTail(a, k);
        TrimExact(a[1..], k, capacity);
      }
    } else {
      YoungerBound(a, k);
    }
  }

  lemma {:induction false} YoungerBound<V>(a: Assoc<V>, k: string)
    requires Has(a, k)
    ensures Younger(a, k) < |a|
  {
    if a[0].0 != k { HasTail(a, k); YoungerBound(a[1..], k); }
  }

  lemma {:induction false} TrimOnlyDrops<V>(a: Assoc<V>, k: string, capacity: nat)
    requires DistinctKeys(a)
    ensures Has(Trim(a, capacity), k) ==> Has(a, k)
    ensures DistinctKeys(Trim(a, capacity)) && |Trim(a, capacity)| <= capacity
  {
    if |a| > capacity {
      TrimOnlyDrops(a[1..], k, capacity);
      if Has(a[1..], k) {
        var i :| 0 <= i < |a[1..]| && a[1..][i].0 == k;
        assert a[i + 1].0 == k;
      }
    }
  }

  lemma {:induction false} OverwriteKeeps<V>(a: Assoc<V>, k: string, v: V, j: string)
    ensures Has(Overwrite(a, k, v), j) <==> Has(a, j)
    ensures Has(a, j) ==> Younger(Overwrite(a, k, v), j) == Younger(a, j)
  {
    var b := Overwrite(a, k, v);
    assert forall i | 0 <= i < |a| :: b[i].0 == a[i].0;
    if Has(a, j) && a[0].0 != j {
      HasTail(a, j);
      HasTail(b, j);
      assert b[1..] == Overwrite(a[1..], k, v);
      OverwriteKeeps(a[1..], k, v, j);
    }
  }

  lemma {:induction false} WithoutDistinct<V>(a: Assoc<V>, k: string)
    requires DistinctKeys(a)
    ensures DistinctKeys(Without(a, k)) && !Has(Without(a, k), k)
  {
    if a != [] {
      WithoutDistinct(a[1..], k);
      var b := Without(a[1..], k);
      forall i | 0 <= i < |b| ensures b[i].0 != a[0].0 { assert b[i] in a[1..]; }
    }
  }

  lemma {:induction false} WithoutKeeps<V>(a: Assoc<V>, k: string, j: string)
    requires j != k
    ensures Has(Without(a, k), j) <==> Has(a, j)
    ensures Has(a, j) ==> Younger(Without(a, k), j) <= Younger(a, j)
  {
    if a != [] {
      var b := Without(a[1..], k);
      if a[0].0 == j {
        assert Without(a, k)[0].0 == j;
      } else {
        WithoutKeeps(a[1..], k, j);
        HasTail(a, j);
        if a[0].0 != k {
          assert Without(a, k)[1..] == b;
          HasTail(Without(a, k), j);
        } else {
          assert Without(a, k) == b;
        }
      }
    }
  }

  /** One operation: what happens to the keys, and to the place in line of one of them. */
  lemma DoKeeps<V>(a: Assoc<V>, op: Op<V>, capacity: nat, k: string)
    requires DistinctKeys(a) && |a| <= capacity
    ensures var b := Do(a, op, capacity);
            && DistinctKeys(b) && |b| <= capacity
            && (Has(a, k) && op != Rem(k) ==>
                  var y := Younger(a, k) + NewKeys(a, [op], capacity);
                  && (y < capacity ==> Has(b, k) && Younger(b, k) <= y)
                  && (op.Ins? && y < capacity ==> Younger(b, k) == y)
                  && (op.Ins? && y >= capacity ==> !Has(b, k)))
            && (!Has(a, k) && !(op.Ins? && op.key == k) ==> !Has(b, k))
  {
    var one := [op];
    assert one[1..] == [];
    assert NewKeys(a, one, capacity) == if op.Ins? && !Has(a, op.key) then 1 else 0;
    match op
    case Rem(j) =>
      WithoutDistinct(a, j);
      if j != k { WithoutKeeps(a, j, k); }
    case Ins(j, v) =>
      OverwriteKeeps(a, j, v, k);
      if Has(a, j) {
        if Has(a, k) { YoungerBound(a, k); }
      } else {
        var grown := a + [(j, v)];
        HasAppend(a, (j, v), k);
        assert DistinctKeys(grown);
        if Has(a, k) {
          YoungerAppend(a, (j, v), k);
          TrimExact(grown, k, capacity);
        } else {
          TrimOnlyDrops(grown, k, capacity);
        }
      }
  }

  /** Over every run: no duplicate key, never above capacity. */
  lemma {:induction false} RunKeepsShape<V>(a: Assoc<V>, ops: seq<Op<V>>, capacity: nat)
    requires DistinctKeys(a) && |a| <= capacity
    ensures DistinctKeys(RunOps(a, ops, capacity)) && |RunOps(a, ops, capacity)| <= capacity
    decreases |ops|
  {
    if ops != [] {
      DoKeeps(a, ops[0], capacity, "");
      RunKeepsShape(Do(a, ops[0], capacity), ops[1..], capacity);
    }
  }

  /** A key that is not removed outlives the run if fewer than `capacity` entries are, or become,
      younger than it, whatever else is inserted, overwritten or removed. */
  lemma {:induction false} YoungKeySurvives<V>(a: Assoc<V>, ops: seq<Op<V>>, capacity: nat, k: string)
    requires DistinctKeys(a) && |a| <= capacity && Has(a, k)
    requires forall i | 0 <= i < |ops| :: ops[i] != Rem(k)
    requires Younger(a, k) + NewKeys(a, ops, capacity) < capacity
    ensures Has(RunOps(a, ops, capacity), k)
    decreases |ops|
  {
    if ops != [] {
      DoKeeps(a, ops[0], capacity, k);
      assert [ops[0]][1..] == [];
      YoungKeySurvives(Do(a, ops[0], capacity), ops[1..], capacity, k);
    }
  }

  /** Without removals eviction is exact: the key is gone iff `capacity` entries came after it. */
  lemma {:induction false} EvictionIsExact<V>(a: Assoc<V>, ops: seq<Op<V>>, capacity: nat, k: string)
    requires DistinctKeys(a) && |a| <= capacity && Has(a, k)
    requires forall i | 0 <= i < |ops| :: ops[i].Ins? && ops[i].key != k
    ensures Has(RunOps(a, ops, capacity), k) <==> Younger(a, k) + NewKeys(a, ops, capacity) < capacity
    decreases |ops|
  {
    if ops == [] {
      YoungerBound(a, k);
    } else {
      DoKeeps(a, ops[0], capacity, k);
      assert [ops[0]][1..] == [];
      var b := Do(a, ops[0], capacity);
      if Has(b, k) {
        EvictionIsExact(b, ops[1..], capacity, k);
      } else {
        StaysGone(b, ops[1..], capacity, k);
      }
    }
  }

  lemma {:induction false} StaysGone<V>(a: Assoc<V>, ops: seq<Op<V>>, capacity: nat, k: string)
    requires DistinctKeys(a) && |a| <= capacity && !Has(a, k)
    requires forall i | 0 <= i < |ops| :: ops[i].Ins? && ops[i].key != k
    ensures !Has(RunOps(a, ops, capacity), k)
    decreases |ops|
  {
    if ops != [] {
      DoKeeps(a, ops[0], capacity, k);
      StaysGone(Do(a, ops[0], capacity), ops[1..], capacity, k);
    }
  }

  // ---- what a read returns ------------------------------------------------------------

  /** The value a run leaves at `k` if nothing is ever evicted. */
  function Latest<V>(start: Option<V>, ops: seq<Op<V>>, k: string): Option<V>
    decreases |ops|
  {
    if ops == [] then start
    else Latest(if ops[0].key != k then start else if ops[0].Ins? then Some(ops[0].value) else None, ops[1..], k)
  }

  lemma {:induction false} LookupOverwrite<V>(a: Assoc<V>, k: string, v: V, j: string)
    ensures Lookup(Overwrite(a, k, v), j) == if j == k && Has(a, k) then Some(v) else Lookup(a, j)
  {
    var b := Overwrite(a, k, v);
    if a != [] && a[0].0 != j {
      assert b[1..] == Overwrite(a[1..], k, v);
      LookupOverwrite(a[1..], k, v, j);
      if a[0].0 != k { HasTail(a, k); }
    } else if a != [] && j == k {
      assert a[0].0 == k;
    }
  }

  lemma {:induction false} LookupTrim<V>(a: Assoc<V>, capacity: nat, k: string)
    requires DistinctKeys(a) && Has(Trim(a, capacity), k)
    ensures Lookup(Trim(a, capacity), k) == Lookup(a, k)
  {
    if |a| > capacity {
      LookupTrim(a[1..], capacity, k);
      TrimOnlyDrops(a[1..], k, capacity);
      var i :| 0 <= i < |a[1..]| && a[1..][i].0 == k;
      assert a[0].0 != a[i + 1].0;
    }
  }

  lemma {:induction false} LookupAppend<V>(a: Assoc<V>, e: (string, V), k: string)
    ensures Lookup(a + [e], k) == if Has(a, k) then Lookup(a, k) else if e.0 == k then Some(e.1) else None
  {
    if a == [] {
      assert [] + [e] == [e];
    } else if a[0].0 == k {
      assert Has(a, k);
    } else {
      assert (a + [e])[1..] == a[1..] + [e];
      LookupAppend(a[1..], e, k);
      HasTail(a, k);
    }
  }

  lemma {:induction false} LookupWithout<V>(a: Assoc<V>, k: string, j: string)
    requires j != k
    ensures Lookup(Without(a, k), j) == Lookup(a, j)
  {
    if a != [] {
      LookupWithout(a[1..], k, j);
      if a[0].0 != k {
        assert Without(a, k)[1..] == Without(a[1..], k);
      } else {
        assert Without(a, k) == Without(a[1..], k);
      }
    }
  }

  lemma LookupDo<V>(a: Assoc<V>, op: Op<V>, capacity: nat, k: string)
    requires DistinctKeys(a) && |a| <= capacity && Has(Do(a, op, capacity), k)
    ensures Lookup(Do(a, op, capacity), k) == Latest(Lookup(a, k), [op], k)
  {
    assert [op][1..] == [];
    match op
    case Rem(j) =>
      WithoutDistinct(a, j);
      if j != k { LookupWithout(a, j, k); }
    case Ins(j, v) =>
      if Has(a, j) {
        LookupOverwrite(a, j, v, k);
      } else {
        HasAppend(a, (j, v), k);
        LookupTrim(a + [(j, v)], capacity, k);
        LookupAppend(a, (j, v), k);
      }
  }

  /** A key that comes back must have been inserted anew. */
  lemma {:induction false} LatestForgets<V>(a: Assoc<V>, ops: seq<Op<V>>, capacity: nat, k: string, start: Option<V>)
    requires DistinctKeys(a) && |a| <= capacity && !Has(a, k) && Has(RunOps(a, ops, capacity), k)
    ensures Latest(start, ops, k) == Latest(None, ops, k)
    decreases |ops|
  {
    if ops[0].key != k {
      DoKeeps(a, ops[0], capacity, k);
      LatestForgets(Do(a, ops[0], capacity), ops[1..], capacity, k, start);
    }
  }

  /** A read is never stale: after any run, a key that is there holds the value last inserted. */
  lemma {:induction false} ReadsAreLatest<V>(a: Assoc<V>, ops: seq<Op<V>>, capacity: nat, k: string)
    requires DistinctKeys(a) && |a| <= capacity && Has(RunOps(a, ops, capacity), k)
    ensures Lookup(RunOps(a, ops, capacity), k) == Latest(Lookup(a, k), ops, k)
    decreases |ops|
  {
    if ops != [] {
      var b := Do(a, ops[0], capacity);
      DoShape(a, ops[0], capacity);
      ReadsAreLatest(b, ops[1..], capacity, k);
      LatestStep(Lookup(a, k), ops, k);
      if Has(b, k) {
        LookupDo(a, ops[0], capacity, k);
      } else {
        LatestForgets(b, ops[1..], capacity, k, Latest(Lookup(a, k), [ops[0]], k));
      }
    }
  }

  lemma DoShape<V>(a: Assoc<V>, op: Op<V>, capacity: nat)
    requires DistinctKeys(a) && |a| <= capacity
    ensures DistinctKeys(Do(a, op, capacity)) && |Do(a, op, capacity)| <= capacity
  {
    DoKeeps(a, op, capacity, "");
  }

  lemma LatestStep<V>(start: Option<V>, ops: seq<Op<V>>, k: string)
    requires ops != []
    ensures Latest(start, ops, k) == Latest(Latest(start, [ops[0]], k), ops[1..], k)
  {
    assert [ops[0]][1..] == [];
  }

  lemma {:induction false} TrimKeepsLast<V>(a: Assoc<V>, e: (string, V), capacity: nat)
    requires capacity > 0
    ensures Trim(a + [e], capacity) != []
    ensures Trim(a + [e], capacity)[|Trim(a + [e], capacity)| - 1] == e
    decreases |a|
  {
    if |a| + 1 > capacity {
      assert (a + [e])[1..] == a[1..] + [e];
      TrimKeepsLast(a[1..], e, capacity);
    }
  }

  /** An inserted value is read back at once; a new key is the youngest, an old one keeps its place. */
  lemma PutReadsBack<V>(a: Assoc<V>, k: string, v: V, capacity: nat)
    requires DistinctKeys(a) && |a| <= capacity && capacity > 0
    ensures var b := Put(a, k, v, capacity);
            && Lookup(b, k) == Some(v)
            && (Has(a, k) ==> Younger(b, k) == Younger(a, k) && |b| == |a|)
            && (!Has(a, k) ==> b != [] && b[|b| - 1] == (k, v) && Younger(b, k) == 0)
  {
    if Has(a, k) {
      LookupOverwrite(a, k, v, k);
      OverwriteKeeps(a, k, v, k);
    } else {
      var grown := a + [(k, v)];
      TrimKeepsLast(a, (k, v), capacity);
      HasAppend(a, (k, v), k);
      assert DistinctKeys(grown);
      LastIsYoungest(a, (k, v));
      TrimExact(grown, k, capacity);
      LookupTrim(grown, capacity, k);
      LookupAppend(a, (k, v), k);
    }
  }

  lemma {:induction false} LastIsYoungest<V>(a: Assoc<V>, e: (string, V))
    requires !Has(a, e.0)
    ensures Has(a + [e], e.0) && Younger(a + [e], e.0) == 0
  {
    HasAppend(a, e, e.0);
    if a != [] {
      assert a[0].0 != e.0;
      HasTail(a, e.0);
      HasTail(a + [e], e.0);
      assert (a + [e])[1..] == a[1..] + [e];
      LastIsYoungest(a[1..], e);
    }
  }
}
