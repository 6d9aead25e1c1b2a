/** Authorized unified search: one bounded query per block, merged, sorted, truncated. */
module Search {
  import opened Prelude

  type Uuid = nat

  datatype ResultType =
    | User | Account | Contact | Product
    | Task | KanbanBoard | ObeyaBoard | KnowledgePack | TrainingCourse | StateMachineInstance
    | LswStandard | KpiDefinition | NotificationTrigger
    | WorkCenter | ProductionCell | StandardWork
  {
    /** Has a table of its own; the others share `entity_store`. */
    predicate Typed() { User? || Account? || Contact? || Product? }

    /** Shop-floor data, restricted to the caller's operational scope. */
    predicate Operational() { WorkCenter? || ProductionCell? || StandardWork? }

    function Name(): string
    {
      match this
      case User => "user" case Account => "account" case Contact => "contact" case Product => "product"
      case Task => "task" case KanbanBoard => "kanban_board" case ObeyaBoard => "obeya_board"
      case KnowledgePack => "knowledge_pack" case TrainingCourse => "training_course"
      case StateMachineInstance => "state_machine_instance" case LswStandard => "lsw_standard"
      case KpiDefinition => "kpi_definition" case NotificationTrigger => "notification_trigger"
      case WorkCenter => "work_center" case ProductionCell => "production_cell" case StandardWork => "standard_work"
    }

    /** Position of the type's name in alphabetical order. */
    function Alphabetical(): nat
    {
      match this
      case Account => 0 case Contact => 1 case KanbanBoard => 2 case KnowledgePack => 3
      case KpiDefinition => 4 case LswStandard => 5 case NotificationTrigger => 6 case ObeyaBoard => 7
      case Product => 8 case ProductionCell => 9 case StandardWork => 10 case StateMachineInstance => 11
      case Task => 12 case TrainingCourse => 13 case User => 14 case WorkCenter => 15
    }
  }

  /** A work center a row is attributed through, and the site it lies in. */
  datatype Carrier = Carrier(workCenter: Uuid, site: Option<Uuid>)

  /** A row of the tenant that matches the query text, with its similarity score. */
  datatype Doc = Doc(kind: ResultType, id: Uuid, title: string, relevance: real, carriers: set<Carrier>)

  datatype Scope = NoOperationalScope | TenantWide | Sites(sites: set<Uuid>, workCenters: set<Uuid>)

  datatype Projection = Projection(types: seq<ResultType>, scope: Scope)

  /** Per-resource attribution: a row's own carriers against the site grants and the exact
      work-center grants; standard work carries no site and is never attributable. */
  predicate Attributed(d: Doc, sites: set<Uuid>, workCenters: set<Uuid>)
  {
    && (d.kind.WorkCenter? || d.kind.ProductionCell?)
    && exists c :: c in d.carriers && ((c.site.Some? && c.site.value in sites) || c.workCenter in workCenters)
  }

  /** What the caller may be shown. */
  predicate Admissible(d: Doc, p: Projection)
  {
    && d.kind in p.types
    && (d.kind.Operational() ==>
          match p.scope
          case TenantWide => true
          case NoOperationalScope => false
          case Sites(sites, workCenters) => Attributed(d, sites, workCenters))
  }

  /** Shop-floor data is work centers, production cells and standard work; everything else a caller
      may read is shown whatever the scope. Shop-floor rows are shown tenant-wide or not at all or,
      under grants, if the row is carried by a granted site or a granted work center; standard work
      never is. */
  lemma ScopeDecides(d: Doc, p: Projection)
    requires d.kind in p.types
    ensures var shopFloor := d.kind == WorkCenter || d.kind == ProductionCell || d.kind == StandardWork;
            && (!shopFloor ==> Admissible(d, p))
            && (shopFloor && p.scope.TenantWide? ==> Admissible(d, p))
            && (shopFloor && p.scope.NoOperationalScope? ==> !Admissible(d, p))
            && (d.kind == StandardWork && p.scope.Sites? ==> !Admissible(d, p))
  {
  }

  /** The four types with tables of their own, and the three of the shop floor, by name. */
  lemma TypesByName(t: ResultType)
    ensures t.Typed() <==> t.Name() in {"user", "account", "contact", "product"}
    ensures t.Operational() <==> t.Name() in {"work_center", "production_cell", "standard_work"}
  {
    NamesByRank(t);
    OnlyTypedNames(t);
  }

  lemma OnlyTypedNames(t: ResultType)
    ensures !t.Typed() ==> t.Name() !in {"user", "account", "contact", "product"}
  {
  }

  /** A work-center grant shows exactly the rows that center carries, never its site's; a site grant
      exactly the rows carried in the site; grants add up, and no grant shows nothing. */
  lemma GrantsExact(d: Doc, sites: set<Uuid>, centers: set<Uuid>, s: Uuid, w: Uuid)
    requires d.kind == WorkCenter || d.kind == ProductionCell
    ensures Attributed(d, {}, {w}) <==> exists c :: c in d.carriers && c.workCenter == w
    ensures Attributed(d, {s}, {}) <==> exists c :: c in d.carriers && c.site == Some(s)
    ensures Attributed(d, sites + {s}, centers) <==> Attributed(d, sites, centers) || Attributed(d, {s}, {})
    ensures Attributed(d, sites, centers + {w}) <==> Attributed(d, sites, centers) || Attributed(d, {}, {w})
    ensures !Attributed(d, {}, {})
  {
  }

  const SEARCH_LIMIT: nat := 50

  /** Every searchable type, in registry order. */
  const REGISTRY: seq<ResultType> := [
    User, Account, Contact, Product, Task, KanbanBoard, ObeyaBoard, KnowledgePack, TrainingCourse,
    StateMachineInstance, LswStandard, KpiDefinition, NotificationTrigger, WorkCenter, StandardWork, ProductionCell]

  /** `AllowedSearchProjection::for_caller`: the registry cut to what the caller may read and, if
      one type was requested, to that type. */
  function ForCaller(canRead: ResultType -> bool, requested: Option<ResultType>, scope: Scope): Projection
  {
    Projection(Filter(REGISTRY, t => canRead(t) && (requested.Some? ==> t == requested.value)), scope)
  }

  /** The projection names exactly the readable requested types, each once. */
  lemma ForCallerExact(canRead: ResultType -> bool, requested: Option<ResultType>, scope: Scope)
    ensures var p := ForCaller(canRead, requested, scope);
            && p.scope == scope && Distinct(p.types)
            && forall t :: t in p.types <==> canRead(t) && (requested.Some? ==> t == requested.value)
  {
    RegistryDistinct();
    forall t: ResultType ensures t in REGISTRY { RegistryHas(t); }
    FilterComplete(REGISTRY, t => canRead(t) && (requested.Some? ==> t == requested.value));
  }

  lemma FilterComplete(all: seq<ResultType>, keep: ResultType -> bool)
    requires Distinct(all) && forall t :: t in all
    ensures Distinct(Filter(all, keep)) && forall t :: t in Filter(all, keep) <==> keep(t)
  {
    FilterDistinct(all, keep);
  }

  function Entry(t: ResultType): nat
  {
    match t
    case User => 0 case Account => 1 case Contact => 2 case Product => 3
    case Task => 4 case KanbanBoard => 5 case ObeyaBoard => 6 case KnowledgePack => 7
    case TrainingCourse => 8 case StateMachineInstance => 9 case LswStandard => 10 case KpiDefinition => 11
    case NotificationTrigger => 12 case WorkCenter => 13 case StandardWork => 14 case ProductionCell => 15
  }

  lemma RegistryHas(t: ResultType)
    ensures t in REGISTRY
  {
    assert REGISTRY[Entry(t)] == t;
  }

  lemma RegistryDistinct()
    ensures Distinct(REGISTRY)
  {
    forall i: nat, j: nat | i < j < |REGISTRY| ensures REGISTRY[i] != REGISTRY[j] {
      EntryAt(i);
      EntryAt(j);
    }
  }

  lemma EntryAt(i: nat)
    requires i < |REGISTRY|
    ensures Entry(REGISTRY[i]) == i
  {
  }

  /** `r` is SOME top-`k` of the matches: ties at the cut may go either way. */
  ghost predicate IsTopK(matches: set<Doc>, r: seq<Doc>, k: nat)
  {
    && Distinct(r) && |r| <= k
    && (forall d | d in r :: d in matches)
    && (forall d, e | d in matches && d !in r && e in r :: d.relevance <= e.relevance)
    && (|r| < k ==> forall d | d in matches :: d in r)
  }

  /** `... WHERE <block> ORDER BY relevance DESC LIMIT k`; nothing is said about tied rows. */
  method Query(matches: set<Doc>, k: nat) returns (r: seq<Doc>)
    ensures IsTopK(matches, r, k)
  {
    r := [];
    var left := matches;
    while left != {} && |r| < k
      invariant left <= matches && Distinct(r) && |r| <= k
      invariant forall d :: d in r <==> d in matches && d !in left
      invariant forall d, e | d in left && e in r :: d.relevance <= e.relevance
      decreases left
    {
      BestExists(left);
      var best :| best in left && forall d | d in left :: d.relevance <= best.relevance;
      r := r + [best];
      left := left - {best};
    }
  }

  lemma {:induction false} BestExists(s: set<Doc>)
    requires s != {}
    ensures exists b :: b in s && forall d | d in s :: d.relevance <= b.relevance
  {
    var x :| x in s;
    if s != {x} {
      var rest := s - {x};
      BestExists(rest);
      var b :| b in rest && forall d | d in rest :: d.relevance <= b.relevance;
      var best := if x.relevance <= b.relevance then b else x;
      assert best in s;
      forall d | d in s ensures d.relevance <= best.relevance {
        if d != x { assert d in rest; }
      }
    }
  }

  // ---- merging blocks ------------------------------------------------------------

  function SetOf(s: seq<Doc>): set<Doc> { set d | d in s }

  function Ahead(results: seq<Doc>, d: Doc): set<Doc> { set e | e in results && d.relevance <= e.relevance }

  /** Answers gathered from blocks that cover `covered`: a covered row is missing only if a full
      page of answers is at least as relevant. */
  ghost predicate Gathered(results: seq<Doc>, covered: set<Doc>)
  {
    && Distinct(results)
    && (forall d | d in results :: d in covered)
    && (forall d | d in covered && d !in results :: |Ahead(results, d)| >= SEARCH_LIMIT)
  }

  lemma {:induction false} Elements(s: seq<Doc>)
    requires Distinct(s)
    ensures |SetOf(s)| == |s|
  {
    if s != [] {
      var init := s[..|s| - 1];
      var last := s[|s| - 1];
      Elements(init);
      assert SetOf(s) == SetOf(init) + {last};
    }
  }

  lemma Extend(results: seq<Doc>, covered: set<Doc>, block: set<Doc>, answer: seq<Doc>)
    requires Gathered(results, covered) && IsTopK(block, answer, SEARCH_LIMIT) && covered !! block
    ensures Gathered(results + answer, covered + block)
  {
    var all := results + answer;
    forall i, j | 0 <= i < j < |all| ensures all[i] != all[j] {
      if i < |results| <= j {
        assert all[i] in covered && all[j] in block;
      } else if j < |results| {
        assert results[i] != results[j];
      } else {
        assert answer[i - |results|] != answer[j - |results|];
      }
    }
    forall d | d in covered + block && d !in all ensures |Ahead(all, d)| >= SEARCH_LIMIT {
      if d in covered {
        assert d !in results;
        SubsetCardinality(Ahead(results, d), Ahead(all, d));
      } else {
        Elements(answer);
        SubsetCardinality(SetOf(answer), Ahead(all, d));
      }
    }
  }

  /** Relevance descending, then type name, then id. */
  predicate Before(a: Doc, b: Doc)
  {
    || b.relevance < a.relevance
    || (a.relevance == b.relevance &&
          (|| a.kind.Alphabetical() < b.kind.Alphabetical()
           || (a.kind == b.kind && a.id <= b.id)))
  }

  /** More relevant first; at equal relevance by type name, then by id. */
  lemma BeforeMeans(a: Doc, b: Doc)
    ensures Before(a, b) <==>
      && b.relevance <= a.relevance
      && (a.relevance == b.relevance ==> StrLe(a.kind.Name(), b.kind.Name()))
      && (a.relevance == b.relevance && a.kind == b.kind ==> a.id <= b.id)
  {
    AlphabeticalIsByName(a.kind, b.kind);
    SameName(a.kind, b.kind);
  }

  /** The names in alphabetical order. */
  function NameAt(rank: nat): string
    requires rank < 16
  {
    match rank
    case 0 => "account" case 1 => "contact" case 2 => "kanban_board" case 3 => "knowledge_pack"
    case 4 => "kpi_definition" case 5 => "lsw_standard" case 6 => "notification_trigger" case 7 => "obeya_board"
    case 8 => "product" case 9 => "production_cell" case 10 => "standard_work" case 11 => "state_machine_instance"
    case 12 => "task" case 13 => "training_course" case 14 => "user" case _ => "work_center"
  }

  lemma NamesByRank(t: ResultType)
    ensures t.Alphabetical() < 16 && NameAt(t.Alphabetical()) == t.Name()
  {
  }

  lemma NeighboursAscend(rank: nat)
    requires rank < 15
    ensures StrLe(NameAt(rank), NameAt(rank + 1)) && NameAt(rank) != NameAt(rank + 1)
  {
    if rank == 8 {
      ProductsAscend();
    } else if rank == 10 {
      StandardsAscend();
    } else if rank < 5 {
      EarlyNeighbours(rank);
    } else {
      LateNeighbours(rank);
    }
  }

  lemma ProductsAscend()
    ensures StrLe(NameAt(8), NameAt(9)) && NameAt(8) != NameAt(9)
  {
    StrLeExact(NameAt(8), NameAt(9));
  }

  lemma StandardsAscend()
    ensures StrLe(NameAt(10), NameAt(11)) && NameAt(10) != NameAt(11)
  {
    FourthDecides(NameAt(10), NameAt(11));
  }

  lemma FourthDecides(a: string, b: string)
    requires |a| > 3 && |b| > 3 && a[0] == b[0] && a[1] == b[1] && a[2] == b[2] && a[3] < b[3]
    ensures StrLe(a, b) && a != b
  {
    StrLeExact(a, b);
    assert LessAt(a, b, 3);
  }

  lemma EarlyNeighbours(rank: nat)
    requires rank < 5
    ensures StrLe(NameAt(rank), NameAt(rank + 1)) && NameAt(rank) != NameAt(rank + 1)
  {
  }

  lemma LateNeighbours(rank: nat)
    requires 5 <= rank < 15 && rank != 8 && rank != 10
    ensures StrLe(NameAt(rank), NameAt(rank + 1)) && NameAt(rank) != NameAt(rank + 1)
  {
  }

  lemma {:induction false} NamesAscend(i: nat, j: nat)
    requires i < j < 16
    ensures StrLe(NameAt(i), NameAt(j)) && NameAt(i) != NameAt(j)
    decreases j
  {
    NeighboursAscend(j - 1);
    if i < j - 1 {
      NamesAscend(i, j - 1);
      StrLeTransitive(NameAt(i), NameAt(j - 1), NameAt(j));
      StrLeTotal(NameAt(j - 1), NameAt(j));
    }
  }

  lemma AlphabeticalIsByName(a: ResultType, b: ResultType)
    ensures a.Alphabetical() <= b.Alphabetical() <==> StrLe(a.Name(), b.Name())
  {
    NamesByRank(a);
    NamesByRank(b);
    var i, j := a.Alphabetical(), b.Alphabetical();
    StrLeTotal(a.Name(), b.Name());
    if i < j { NamesAscend(i, j); }
    if j < i { NamesAscend(j, i); }
  }

  lemma BeforeIsTotal()
    ensures TotalPreorder(Before)
  {
    forall a: Doc, b: Doc ensures Before(a, b) || Before(b, a) { SameName(a.kind, b.kind); }
  }

  lemma SameName(a: ResultType, b: ResultType)
    ensures a.Alphabetical() == b.Alphabetical() ==> a == b
  {
  }

  function Page(sorted: seq<Doc>): seq<Doc>
  {
    if |sorted| > SEARCH_LIMIT then sorted[..SEARCH_LIMIT] else sorted
  }

  lemma NoneOutranks(results: seq<Doc>, covered: set<Doc>, sorted: seq<Doc>, d: Doc, e: Doc)
    requires Gathered(results, covered) && Distinct(sorted) && Sorted(sorted, Before)
    requires forall x :: x in sorted <==> x in results
    requires d in covered && d !in Page(sorted) && e in Page(sorted)
    ensures d.relevance <= e.relevance
  {
    var r := Page(sorted);
    var i :| 0 <= i < |r| && r[i] == e;
    assert sorted[i] == e;
    if d in sorted {
      var j :| 0 <= j < |sorted| && sorted[j] == d;
      assert Before(sorted[i], sorted[j]);
    } else if d.relevance > e.relevance {
      FewAhead(sorted, results, d, i);
    }
  }

  lemma ShortPageIsAll(results: seq<Doc>, covered: set<Doc>, d: Doc)
    requires Gathered(results, covered) && |results| < SEARCH_LIMIT && d in covered
    ensures d in results
  {
    if d !in results {
      Elements(results);
      SubsetCardinality(Ahead(results, d), SetOf(results));
    }
  }

  /** Sorting the gathered answers and cutting at the limit gives a top-50 of everything covered. */
  lemma CutIsTopK(results: seq<Doc>, covered: set<Doc>)
    requires Gathered(results, covered)
    ensures var page := Page(Sort(results, Before));
            IsTopK(covered, page, SEARCH_LIMIT) && Sorted(page, Before)
  {
    BeforeIsTotal();
    SortCorrect(results, Before);
    var sorted := Sort(results, Before);
    SameElements(sorted, results);
    PermutationDistinct(results, sorted);
    forall d, e | d in covered && d !in Page(sorted) && e in Page(sorted) ensures d.relevance <= e.relevance {
      NoneOutranks(results, covered, sorted, d, e);
    }
    if |Page(sorted)| < SEARCH_LIMIT {
      forall d | d in covered ensures d in Page(sorted) { ShortPageIsAll(results, covered, d); }
    }
  }

  /** Everything strictly more relevant than position `i` sits before it: fewer than a page. */
  lemma FewAhead(sorted: seq<Doc>, results: seq<Doc>, d: Doc, i: nat)
    requires i < |sorted| && i < SEARCH_LIMIT && Distinct(sorted) && Sorted(sorted, Before)
    requires forall x :: x in sorted <==> x in results
    requires d.relevance > sorted[i].relevance
    ensures |Ahead(results, d)| < SEARCH_LIMIT
  {
    var early := sorted[..i];
    forall j | i <= j < |sorted| ensures sorted[j].relevance <= sorted[i].relevance {
      if i < j { assert Before(sorted[i], sorted[j]); }
    }
    forall x | x in Ahead(results, d) ensures x in early {
      var j :| 0 <= j < |sorted| && sorted[j] == x;
      assert early[j] == x;
    }
    Elements(early);
    SubsetCardinality(Ahead(results, d), SetOf(early));
  }

  // ---- the search ---------------------------------------------------------------

  function Visible(corpus: set<Doc>, p: Projection): set<Doc> { set d | d in corpus && Admissible(d, p) }

  function Block(corpus: set<Doc>, p: Projection, kinds: set<ResultType>): set<Doc>
  {
    set d | d in corpus && d.kind in kinds && Admissible(d, p)
  }

  function OfKinds(types: seq<ResultType>, typed: bool): set<ResultType>
  {
    set k | k in types && k.Typed() == typed
  }

  lemma JoinBlocks(corpus: set<Doc>, p: Projection, a: set<ResultType>, b: set<ResultType>)
    requires a !! b
    ensures Block(corpus, p, a) + Block(corpus, p, b) == Block(corpus, p, a + b)
    ensures Block(corpus, p, a) !! Block(corpus, p, b)
  {
  }

  /** The typed tables, one query each. */
  method SearchTyped(corpus: set<Doc>, p: Projection) returns (results: seq<Doc>)
    requires Distinct(p.types)
    ensures Gathered(results, Block(corpus, p, OfKinds(p.types, true)))
  {
    results := [];
    ghost var asked: set<ResultType> := {};
    var i := 0;
    while i < |p.types|
      invariant i <= |p.types|
      invariant asked == OfKinds(p.types[..i], true)
      invariant Gathered(results, Block(corpus, p, asked))
    {
      var kind := p.types[i];
      assert p.types[..i + 1] == p.types[..i] + [kind];
      assert kind !in p.types[..i];
      if kind.Typed() {
        var answer := Query((set d | d in corpus && d.kind == kind), SEARCH_LIMIT);
        assert Block(corpus, p, {kind}) == set d | d in corpus && d.kind == kind;
        JoinBlocks(corpus, p, asked, {kind});
        Extend(results, Block(corpus, p, asked), Block(corpus, p, {kind}), answer);
        results := results + answer;
        asked := asked + {kind};
      }
      i := i + 1;
    }
    assert p.types[..i] == p.types;
  }

  /** The tenant-mode generic types, in one query. */
  method SearchTenantTypes(corpus: set<Doc>, p: Projection, kinds: set<ResultType>) returns (answer: seq<Doc>)
    requires forall k | k in kinds :: k in p.types && !k.Operational()
    ensures IsTopK(Block(corpus, p, kinds), answer, SEARCH_LIMIT)
  {
    assert Block(corpus, p, kinds) == set d | d in corpus && d.kind in kinds;
    answer := [];
    if kinds != {} {
      answer := Query((set d | d in corpus && d.kind in kinds), SEARCH_LIMIT);
    }
  }

  /** The operational types, restricted inside the query; skipped without operational scope. */
  method SearchOperationalTypes(corpus: set<Doc>, p: Projection, kinds: set<ResultType>) returns (answer: seq<Doc>)
    requires forall k | k in kinds :: k in p.types && k.Operational()
    ensures IsTopK(Block(corpus, p, kinds), answer, SEARCH_LIMIT)
  {
    answer := [];
    if kinds != {} {
      match p.scope {
        case TenantWide =>
          assert Block(corpus, p, kinds) == set d | d in corpus && d.kind in kinds;
          answer := Query((set d | d in corpus && d.kind in kinds), SEARCH_LIMIT);
        case NoOperationalScope =>
          assert Block(corpus, p, kinds) == {};
        case Sites(sites, workCenters) =>
          assert Block(corpus, p, kinds) == set d | d in corpus && d.kind in kinds && Attributed(d, sites, workCenters);
          answer := Query((set d | d in corpus && d.kind in kinds && Attributed(d, sites, workCenters)), SEARCH_LIMIT);
      }
    }
  }

  /** `search_authorized` over the rows of the tenant that match the query. The merged page is a
      top-50 of ALL admissible matches: nothing inadmissible, no omitted match strictly more
      relevant than a returned one, and a short page means there was nothing else. */
  method SearchAuthorized(blank: bool, corpus: set<Doc>, p: Projection) returns (page: seq<Doc>)
    requires Distinct(p.types)
    ensures blank ==> page == []
    ensures !blank ==> IsTopK(Visible(corpus, p), page, 50)
    ensures Sorted(page, Before)
  {
    if blank || p.types == [] {
      return [];
    }
    var results := SearchTyped(corpus, p);
    var tenantTypes, operationalTypes := SplitByMode(p.types);
    ghost var typed := OfKinds(p.types, true);
    var answer := SearchTenantTypes(corpus, p, tenantTypes);
    JoinBlocks(corpus, p, typed, tenantTypes);
    Extend(results, Block(corpus, p, typed), Block(corpus, p, tenantTypes), answer);
    results := results + answer;
    answer := SearchOperationalTypes(corpus, p, operationalTypes);
    JoinBlocks(corpus, p, typed + tenantTypes, operationalTypes);
    Extend(results, Block(corpus, p, typed + tenantTypes), Block(corpus, p, operationalTypes), answer);
    results := results + answer;
    assert Visible(corpus, p) == Block(corpus, p, typed + tenantTypes + operationalTypes);
    CutIsTopK(results, Visible(corpus, p));
    page := Sort(results, Before);
    if |page| > SEARCH_LIMIT { page := page[..SEARCH_LIMIT]; }
  }

  /** The generic types of the projection, by scope mode. */
  method SplitByMode(types: seq<ResultType>) returns (tenant: set<ResultType>, operational: set<ResultType>)
    ensures tenant == set k | k in types && !k.Typed() && !k.Operational()
    ensures operational == set k | k in types && k.Operational()
  {
    tenant, operational := {}, {};
    for i := 0 to |types|
      invariant tenant == set k | k in types[..i] && !k.Typed() && !k.Operational()
      invariant operational == set k | k in types[..i] && k.Operational()
    {
      assert types[..i + 1] == types[..i] + [types[i]];
      if types[i].Operational() {
        operational := operational + {types[i]};
      } else if !types[i].Typed() {
        tenant := tenant + {types[i]};
      }
    }
    assert types[..|types|] == types;
  }
}
