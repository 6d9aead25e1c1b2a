/** Regrouping the selected items into named sections. */
module Sections {
  import opened Prelude
  import opened Values
  import opened Context

  // ---- the plan ------------------------------------------------------------------------

  datatype Task =
    | Troubleshoot | ExecutiveAnalysis | OperatorAssist | PlannerDecision | QualityInvestigation | General

  const GENERAL := "general"

  const EVERY_TASK: seq<string> := ["governing_context", "authority_scope", "role_context", "current_work"]

  function ForTask(task: Task): seq<string>
  {
    match task
    case Troubleshoot => ["process_standard", "recent_failures", "similar_lessons"]
    case ExecutiveAnalysis => ["metric_tree", "exception_summary", "causal_candidates"]
    case OperatorAssist => ["standard_work", "live_state"]
    case PlannerDecision => ["demand_vs_capacity", "constraint_loading"]
    case QualityInvestigation => ["occurrence_history", "detection_history", "escape_history"]
    case General => []
  }

  function PlanContext(task: Task): seq<string> { EVERY_TASK + ForTask(task) }

  /** A section name tells one requirement from another, and from the catch-all. */
  lemma PlannedNamesAreDistinct(task: Task)
    ensures Distinct(PlanContext(task)) && GENERAL !in PlanContext(task)
  {
  }

  /** What must be present whatever the question: the standing context first, then for
      troubleshooting the standard, the failures and the lessons, and for executives the metrics, the
      exceptions and the causes, but no process standard. */
  lemma PlansPromise(task: Task)
    ensures |PlanContext(task)| >= 4
    ensures PlanContext(task)[..4] == ["governing_context", "authority_scope", "role_context", "current_work"]
    ensures task.General? <==> |PlanContext(task)| == 4
    ensures task.Troubleshoot? <==> "process_standard" in PlanContext(task)
    ensures task.Troubleshoot? ==> "recent_failures" in PlanContext(task) && "similar_lessons" in PlanContext(task)
    ensures task.ExecutiveAnalysis? <==> "metric_tree" in PlanContext(task)
    ensures task.ExecutiveAnalysis? ==> "exception_summary" in PlanContext(task) && "causal_candidates" in PlanContext(task)
  {
    assert PlanContext(task)[..4] == EVERY_TASK;
    assert forall n :: n in PlanContext(task) <==> n in EVERY_TASK || n in ForTask(task);
  }

  /** The first required name the payload has as a field. */
  function SectionOf(item: Item, required: seq<string>): string
  {
    if required == [] || !item.payload.Obj? then GENERAL
    else if required[0] in item.payload.members then required[0]
    else SectionOf(item, required[1..])
  }

  lemma {:induction false} SectionOfExact(item: Item, required: seq<string>, i: nat)
    requires Distinct(required) && GENERAL !in required && i < |required|
    ensures SectionOf(item, required) == required[i] <==>
              && Get(item.payload, required[i]).Some?
              && forall j | 0 <= j < i :: Get(item.payload, required[j]).None?
    decreases |required|
  {
    var rest := required[1..];
    SectionOfAmong(item, rest);
    if i > 0 {
      assert rest[i - 1] == required[i];
      SectionOfExact(item, rest, i - 1);
      assert forall j | 1 <= j < i :: required[j] == rest[j - 1];
    }
  }

  lemma {:induction false} SectionOfAmong(item: Item, required: seq<string>)
    ensures SectionOf(item, required) in required + [GENERAL]
  {
    if required != [] { SectionOfAmong(item, required[1..]); }
  }

  // ---- regrouping -----------------------------------------------------------------------

  /** The distinct elements, in order of first appearance. */
  function Firsts<T(==)>(xs: seq<T>): seq<T>
  {
    if xs == [] then []
    else
      var before := Firsts(xs[..|xs| - 1]);
      if xs[|xs| - 1] in before then before else before + [xs[|xs| - 1]]
  }

  lemma {:induction false} FirstsExact<T>(xs: seq<T>)
    ensures Distinct(Firsts(xs)) && forall x :: x in Firsts(xs) <==> x in xs
  {
    if xs != [] {
      FirstsExact(xs[..|xs| - 1]);
      assert xs == xs[..|xs| - 1] + [xs[|xs| - 1]];
    }
  }

  function Names<T>(xs: seq<T>, name: T -> string): seq<string> { seq(|xs|, i requires 0 <= i < |xs| => name(xs[i])) }

  function Elements<T>(xs: seq<T>): set<T> { set x | x in xs }

  lemma ElementsStep<T>(xs: seq<T>, i: nat)
    requires i < |xs|
    ensures Elements(xs[..i + 1]) == Elements(xs[..i]) + {xs[i]}
  {
    assert xs[..i + 1] == xs[..i] + [xs[i]];
  }

  function Part<T>(xs: seq<T>, name: T -> string, n: string): seq<T> { Filter(xs, x => name(x) == n) }

  lemma PartIs<T>(xs: seq<T>, name: T -> string, n: string, member: T -> bool)
    requires forall x | x in xs :: member(x) <==> name(x) == n
    ensures Part(xs, name, n) == Filter(xs, member)
  {
    FilterSame(xs, x => name(x) == n, member);
  }

  /** Each occupied name with its items. */
  ghost predicate Grouped<T>(groups: map<string, seq<T>>, xs: seq<T>, name: T -> string)
  {
    forall n :: At(groups, n) == SomeIfAny(Part(xs, name, n))
  }

  lemma GroupStep<T>(groups: map<string, seq<T>>, xs: seq<T>, i: nat, name: T -> string)
    requires i < |xs| && Grouped(groups, xs[..i], name)
    ensures var n := name(xs[i]);
            Grouped(groups[n := (if n in groups then groups[n] else []) + [xs[i]]], xs[..i + 1], name)
    ensures name(xs[i]) in groups <==> name(xs[i]) in Names(xs[..i], name)
    ensures Names(xs[..i + 1], name) == Names(xs[..i], name) + [name(xs[i])]
  {
    var n := name(xs[i]);
    assert xs[..i + 1] == xs[..i] + [xs[i]];
    var before := if n in groups then groups[n] else [];
    assert before == Part(xs[..i], name, n) by {
      assert At(groups, n) == SomeIfAny(Part(xs[..i], name, n));
    }
    var after := groups[n := before + [xs[i]]];
    forall m ensures At(after, m) == SomeIfAny(Part(xs[..i + 1], name, m)) {
      PartPush(xs[..i], xs[i], name, m);
      assert At(groups, m) == SomeIfAny(Part(xs[..i], name, m));
      if m == n {
        assert At(after, m) == Some(before + [xs[i]]);
      } else {
        assert At(after, m) == At(groups, m);
        assert Part(xs[..i], name, m) + [] == Part(xs[..i], name, m);
      }
    }
    OccupiedIffNamed(xs[..i], name, n);
    assert At(groups, n) == SomeIfAny(Part(xs[..i], name, n));
  }

  lemma PartPush<T>(xs: seq<T>, x: T, name: T -> string, m: string)
    ensures Part(xs + [x], name, m) == Part(xs, name, m) + if name(x) == m then [x] else []
  {
    FilterAppend(xs, [x], y => name(y) == m);
  }

  lemma OccupiedIffNamed<T>(xs: seq<T>, name: T -> string, n: string)
    ensures Part(xs, name, n) != [] <==> n in Names(xs, name)
  {
    if Part(xs, name, n) != [] {
      var x := Part(xs, name, n)[0];
      assert x in Part(xs, name, n);
      var i :| 0 <= i < |xs| && xs[i] == x;
      assert Names(xs, name)[i] == n;
    }
    if n in Names(xs, name) {
      var i :| 0 <= i < |xs| && Names(xs, name)[i] == n;
      assert xs[i] in Part(xs, name, n);
    }
  }

  method GroupItems<T>(xs: seq<T>, name: T -> string) returns (groups: map<string, seq<T>>, order: seq<string>)
    ensures Grouped(groups, xs, name)
    ensures order == Firsts(Names(xs, name))
  {
    groups, order := map[], [];
    for i := 0 to |xs|
      invariant Grouped(groups, xs[..i], name)
      invariant order == Firsts(Names(xs[..i], name))
    {
      GroupStep(groups, xs, i, name);
      FirstsExact(Names(xs[..i], name));
      assert Names(xs[..i + 1], name)[..i] == Names(xs[..i], name);
      var n := name(xs[i]);
      if n !in groups { order := order + [n]; }
      groups := groups[n := (if n in groups then groups[n] else []) + [xs[i]]];
    }
    assert xs[..|xs|] == xs;
  }

  type Sectioned<T> = seq<(string, seq<T>)>

  function Titles<T>(sections: Sectioned<T>): seq<string> { seq(|sections|, i requires 0 <= i < |sections| => sections[i].0) }

  function Flat<T>(sections: Sectioned<T>): seq<T>
  {
    if sections == [] then [] else Flat(sections[..|sections| - 1]) + sections[|sections| - 1].1
  }

  /** Required names first, in plan order; then the others, in order of first appearance. */
  function TitleOrder(required: seq<string>, order: seq<string>): seq<string>
  {
    Filter(Firsts(required), n => n in order) + Filter(order, n => n !in required)
  }

  lemma TitlesPush<T>(sections: Sectioned<T>, n: string, xs: seq<T>)
    ensures Titles(sections + [(n, xs)]) == Titles(sections) + [n]
  {
  }

  /** The first emitting loop: it takes the required groups out of the map. */
  method EmitRequired<T>(required: seq<string>, groups: map<string, seq<T>>)
    returns (sections: Sectioned<T>, emitted: set<string>, left: map<string, seq<T>>)
    ensures Titles(sections) == Filter(Firsts(required), n => n in groups)
    ensures emitted == groups.Keys * Elements(required)
    ensures left == groups - emitted
    ensures forall s | s in sections :: s.0 in groups && s.1 == groups[s.0]
  {
    sections, emitted, left := [], {}, groups;
    for i := 0 to |required|
      invariant Titles(sections) == Filter(Firsts(required[..i]), n => n in groups)
      invariant emitted == groups.Keys * Elements(required[..i])
      invariant left == groups - emitted
      invariant forall s | s in sections :: s.0 in groups && s.1 == groups[s.0]
    {
      var n := required[i];
      TakeStep(required, i, groups.Keys);
      ElementsStep(required, i);
      if n in left {
        TitlesPush(sections, n, left[n]);
        sections := sections + [(n, left[n])];
        emitted := emitted + {n};
        left := left - {n};
      }
    }
    assert required[..|required|] == required;
  }

  /** The second: what is left, in order of first appearance. */
  method EmitOthers<T>(order: seq<string>, emitted: set<string>, groups: map<string, seq<T>>)
    returns (sections: Sectioned<T>)
    requires Distinct(order) && (forall n | n in order :: n in emitted || n in groups)
    requires emitted !! groups.Keys
    ensures Titles(sections) == Filter(order, n => n !in emitted)
    ensures forall s | s in sections :: s.0 in groups && s.1 == groups[s.0]
  {
    sections := [];
    var left := groups;
    for i := 0 to |order|
      invariant Titles(sections) == Filter(order[..i], n => n !in emitted)
      invariant forall k | i <= k < |order| :: At(left, order[k]) == At(groups, order[k])
      invariant forall s | s in sections :: s.0 in groups && s.1 == groups[s.0]
    {
      var n := order[i];
      OtherStep(order, i, emitted);
      assert At(left, n) == At(groups, n);
      if n !in emitted {
        if n in left {
          TitlesPush(sections, n, left[n]);
          sections := sections + [(n, left[n])];
          left := left - {n};
        }
      }
    }
    assert order[..|order|] == order;
  }

  lemma OtherStep(order: seq<string>, i: nat, emitted: set<string>)
    requires i < |order|
    ensures Filter(order[..i + 1], n => n !in emitted)
         == Filter(order[..i], n => n !in emitted) + if order[i] !in emitted then [order[i]] else []
  {
    assert order[..i + 1] == order[..i] + [order[i]];
    FilterAppend(order[..i], [order[i]], m => m !in emitted);
  }

  lemma TakeStep(required: seq<string>, i: nat, names: set<string>)
    requires i < |required|
    ensures var n := required[i];
            Filter(Firsts(required[..i + 1]), m => m in names)
              == Filter(Firsts(required[..i]), m => m in names) + if n in names && n !in required[..i] then [n] else []
  {
    assert required[..i + 1][..i] == required[..i];
    FirstsExact(required[..i]);
    FilterAppend(Firsts(required[..i]), [required[i]], m => m in names);
  }

  /** The sections of `xs`: distinct names in title order, each with exactly its items. */
  ghost predicate LaidOut<T>(sections: Sectioned<T>, xs: seq<T>, name: T -> string, required: seq<string>)
  {
    && Titles(sections) == TitleOrder(required, Firsts(Names(xs, name)))
    && forall s | s in sections :: s.1 == Part(xs, name, s.0) && s.1 != []
  }

  method Regroup<T>(xs: seq<T>, name: T -> string, required: seq<string>) returns (sections: Sectioned<T>)
    ensures LaidOut(sections, xs, name, required)
  {
    var groups, order := GroupItems(xs, name);
    FirstsExact(Names(xs, name));
    forall n ensures n in order <==> n in groups {
      OccupiedIffNamed(xs, name, n);
      assert At(groups, n) == SomeIfAny(Part(xs, name, n));
    }
    var first, emitted, left := EmitRequired(required, groups);
    var others := EmitOthers(order, emitted, left);
    FilterSame(Firsts(required), n => n in groups, n => n in order);
    FilterSame(order, n => n !in emitted, n => n !in required);
    TitlesJoin(first, others);
    sections := first + others;
    forall s | s in sections ensures s.1 == Part(xs, name, s.0) && s.1 != [] {
      assert At(groups, s.0) == SomeIfAny(Part(xs, name, s.0));
    }
  }

  lemma TitlesJoin<T>(a: Sectioned<T>, b: Sectioned<T>)
    ensures Titles(a + b) == Titles(a) + Titles(b)
  {
  }

  lemma DistinctJoin<T>(a: seq<T>, b: seq<T>)
    requires Distinct(a) && Distinct(b) && forall x | x in a :: x !in b
    ensures Distinct(a + b)
  {
    forall i, j | 0 <= i < j < |a + b| ensures (a + b)[i] != (a + b)[j] {
      if i < |a| <= j { assert a[i] in a && b[j - |a|] in b; }
    }
  }

  /** No two sections share a name, and every item's section is there. */
  lemma TitlesAreTheNames<T>(sections: Sectioned<T>, xs: seq<T>, name: T -> string, required: seq<string>)
    requires LaidOut(sections, xs, name, required)
    ensures Distinct(Titles(sections))
    ensures forall n :: n in Titles(sections) <==> n in Names(xs, name)
  {
    var order := Firsts(Names(xs, name));
    FirstsExact(Names(xs, name));
    FirstsExact(required);
    FilterDistinct(Firsts(required), n => n in order);
    FilterDistinct(order, n => n !in required);
    DistinctJoin(Filter(Firsts(required), n => n in order), Filter(order, n => n !in required));
  }

  /** The sections share the items out: each item, with its multiplicity, in one place. */
  lemma SectionsPartition<T>(sections: Sectioned<T>, xs: seq<T>, name: T -> string, required: seq<string>)
    requires LaidOut(sections, xs, name, required)
    ensures multiset(Flat(sections)) == multiset(xs)
  {
    TitlesAreTheNames(sections, xs, name, required);
    FlatIsPart(sections, xs, name);
    forall x | x in xs ensures name(x) in Titles(sections) {
      var i :| 0 <= i < |xs| && xs[i] == x;
      assert Names(xs, name)[i] == name(x);
    }
    FilterAll(xs, x => name(x) in Titles(sections));
  }

  lemma {:induction false} FilterAll<T>(xs: seq<T>, keep: T -> bool)
    requires forall x | x in xs :: keep(x)
    ensures Filter(xs, keep) == xs
  {
    if xs != [] { FilterAll(xs[1..], keep); }
  }

  lemma {:induction false} FlatIsPart<T>(sections: Sectioned<T>, xs: seq<T>, name: T -> string)
    requires Distinct(Titles(sections)) && forall s | s in sections :: s.1 == Part(xs, name, s.0)
    ensures multiset(Flat(sections)) == multiset(Filter(xs, x => name(x) in Titles(sections)))
  {
    if sections == [] {
      FilterNone(xs, x => name(x) in Titles(sections));
    } else {
      var init, last := sections[..|sections| - 1], sections[|sections| - 1];
      var before := Titles(init);
      assert sections == init + [last];
      TitlesPush(init, last.0, last.1);
      DistinctLast(before, last.0);
      FlatIsPart(init, xs, name);
      assert last in sections;
      FilterUnion(xs, x => name(x) in before, x => name(x) == last.0, x => name(x) in Titles(sections));
    }
  }

  lemma DistinctLast<T>(xs: seq<T>, x: T)
    requires Distinct(xs + [x])
    ensures Distinct(xs) && x !in xs
  {
    var all := xs + [x];
    forall i | 0 <= i < |xs| ensures xs[i] != x && all[i] == xs[i] { assert all[i] != all[|xs|]; }
  }

  lemma {:induction false} FilterNone<T>(xs: seq<T>, keep: T -> bool)
    requires forall x | x in xs :: !keep(x)
    ensures Filter(xs, keep) == []
  {
    if xs != [] { FilterNone(xs[1..], keep); }
  }

  lemma {:induction false} FilterCounts<T>(xs: seq<T>, keep: T -> bool, x: T)
    ensures multiset(Filter(xs, keep))[x] == if keep(x) then multiset(xs)[x] else 0
  {
    if xs != [] {
      var h, rest := xs[0], xs[1..];
      FilterCounts(rest, keep, x);
      assert xs == [h] + rest;
      CountPush(h, rest, x);
      CountPush(h, Filter(rest, keep), x);
      FilterHead(xs, keep);
    }
  }

  lemma FilterHead<T>(xs: seq<T>, keep: T -> bool)
    requires xs != []
    ensures Filter(xs, keep) == if keep(xs[0]) then [xs[0]] + Filter(xs[1..], keep) else Filter(xs[1..], keep)
  {
  }

  lemma FilterUnion<T>(xs: seq<T>, p: T -> bool, q: T -> bool, both: T -> bool)
    requires forall x | x in xs :: both(x) == (p(x) || q(x)) && !(p(x) && q(x))
    ensures multiset(Filter(xs, both)) == multiset(Filter(xs, p)) + multiset(Filter(xs, q))
  {
    forall x ensures multiset(Filter(xs, both))[x] == multiset(Filter(xs, p))[x] + multiset(Filter(xs, q))[x] {
      UnionCounts(xs, p, q, both, x);
    }
    SameCounts(multiset(Filter(xs, both)), multiset(Filter(xs, p)), multiset(Filter(xs, q)));
  }

  lemma SameCounts<T>(whole: multiset<T>, a: multiset<T>, b: multiset<T>)
    requires forall x :: whole[x] == a[x] + b[x]
    ensures whole == a + b
  {
  }

  lemma UnionCounts<T>(xs: seq<T>, p: T -> bool, q: T -> bool, both: T -> bool, x: T)
    requires x in xs ==> both(x) == (p(x) || q(x)) && !(p(x) && q(x))
    ensures multiset(Filter(xs, both))[x] == multiset(Filter(xs, p))[x] + multiset(Filter(xs, q))[x]
  {
    FilterCounts(xs, p, x);
    FilterCounts(xs, q, x);
    FilterCounts(xs, both, x);
    CountsElements(xs, x);
  }

  // ---- the order of the sections --------------------------------------------------------

  /** `a` occurs, and before it `b` does not. */
  ghost predicate ComesFirst<T>(xs: seq<T>, a: T, b: T)
  {
    exists m :: 0 <= m < |xs| && xs[m] == a && forall n | 0 <= n <= m :: xs[n] != b
  }

  lemma FirstsHas<T>(xs: seq<T>, x: T)
    ensures x in Firsts(xs) <==> x in xs
  {
    FirstsExact(xs);
  }

  lemma {:induction false} FirstsInOrder<T>(xs: seq<T>, i: nat, j: nat)
    requires i < j < |Firsts(xs)|
    ensures ComesFirst(xs, Firsts(xs)[i], Firsts(xs)[j])
  {
    var init := xs[..|xs| - 1];
    var f, g := Firsts(xs), Firsts(init);
    if j < |g| {
      FirstsInOrder(init, i, j);
      var m :| 0 <= m < |init| && init[m] == f[i] && forall n | 0 <= n <= m :: init[n] != f[j];
      assert xs[m] == f[i] && forall n | 0 <= n <= m :: xs[n] == init[n];
    } else {
      FirstsHas(init, g[i]);
      FirstsHas(init, f[j]);
      var m :| 0 <= m < |init| && init[m] == f[i];
      assert xs[m] == f[i] && forall n | 0 <= n <= m :: xs[n] == init[n] && init[n] in init;
    }
  }

  lemma {:induction false} FilterInOrder<T>(xs: seq<T>, keep: T -> bool, i: nat, j: nat) returns (k: nat, l: nat)
    requires i < j < |Filter(xs, keep)|
    ensures k < l < |xs| && xs[k] == Filter(xs, keep)[i] && xs[l] == Filter(xs, keep)[j]
  {
    if keep(xs[0]) {
      if i == 0 {
        var y := Filter(xs, keep)[j];
        assert Filter(xs[1..], keep)[j - 1] == y;
        assert y in Filter(xs[1..], keep);
        var m :| 0 <= m < |xs[1..]| && xs[1..][m] == y;
        k, l := 0, m + 1;
      } else {
        k, l := FilterInOrder(xs[1..], keep, i - 1, j - 1);
        k, l := k + 1, l + 1;
      }
    } else {
      k, l := FilterInOrder(xs[1..], keep, i, j);
      k, l := k + 1, l + 1;
    }
  }

  /** A required section never follows another; among the required the plan's order holds, among the
      others that of their first items. */
  lemma TitlesInOrder<T>(sections: Sectioned<T>, xs: seq<T>, name: T -> string, required: seq<string>, i: nat, j: nat)
    requires LaidOut(sections, xs, name, required) && i < j < |sections|
    ensures var a, b := sections[i].0, sections[j].0;
            && (b in required ==> a in required && ComesFirst(required, a, b))
            && (a !in required ==> b !in required && ComesFirst(Names(xs, name), a, b))
  {
    var order := Firsts(Names(xs, name));
    var first, others := Filter(Firsts(required), n => n in order), Filter(order, n => n !in required);
    assert Titles(sections) == first + others;
    assert sections[i].0 == Titles(sections)[i] && sections[j].0 == Titles(sections)[j];
    FirstsExact(required);
    if j < |first| {
      var k, l := FilterInOrder(Firsts(required), n => n in order, i, j);
      FirstsInOrder(required, k, l);
      assert first[i] in first && first[j] in first;
    } else {
      assert others[j - |first|] in others;
      if i >= |first| {
        var k, l := FilterInOrder(order, n => n !in required, i - |first|, j - |first|);
        FirstsInOrder(Names(xs, name), k, l);
        assert others[i - |first|] in others;
      } else {
        assert first[i] in first;
      }
    }
  }
}
