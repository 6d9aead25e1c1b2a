/** The i18n generator: flattening a locale tree to dotted keys. */
module Flatten {
  import opened Prelude

  /** A locale file: string leaves, objects in key order, and everything that is neither. */
  datatype Tree = Leaf(text: string) | Ignored | Node(members: seq<Member>)

  datatype Member = Member(key: string, value: Tree)

  function Key(prefix: string, k: string): string { if prefix == "" then k else prefix + "." + k }

  /** `flatten_json`: later members extend, and on a clash override, earlier ones. */
  function FlattenJson(v: Tree, prefix: string): map<string, string>
    decreases v, 1
  {
    match v
    case Leaf(text) => map[prefix := text]
    case Ignored => map[]
    case Node(members) => FlattenMembers(members, prefix)
  }

  function FlattenMembers(ms: seq<Member>, prefix: string): map<string, string>
    decreases ms, 0
  {
    if ms == [] then map[]
    else FlattenJson(ms[0].value, Key(prefix, ms[0].key)) + FlattenMembers(ms[1..], prefix)
  }

  /** The string leaf a path of keys leads to, if any. */
  function LeafAt(v: Tree, path: seq<string>): Option<string>
    decreases |path|, v, 1
  {
    match v
    case Leaf(text) => if path == [] then Some(text) else None
    case Ignored => None
    case Node(members) => if path == [] then None else LeafUnder(members, path)
  }

  function LeafUnder(ms: seq<Member>, path: seq<string>): Option<string>
    requires path != []
    decreases |path|, ms, 0
  {
    if ms == [] then None
    else if ms[0].key == path[0] then LeafAt(ms[0].value, path[1..])
    else LeafUnder(ms[1..], path)
  }

  predicate DotFree(k: string) { forall i | 0 <= i < |k| :: k[i] != '.' }

  predicate SafeKey(k: string) { k != "" && DotFree(k) }

  predicate SafePath(p: seq<string>) { forall k | k in p :: SafeKey(k) }

  /** Every key is non-empty and dot-free, and an object has no key twice. */
  predicate Safe(v: Tree)
    decreases v, 1
  {
    v.Node? ==> SafeMembers(v.members)
  }

  predicate SafeMembers(ms: seq<Member>)
    decreases ms, 0
  {
    ms != [] ==>
      && SafeKey(ms[0].key) && Safe(ms[0].value) && SafeMembers(ms[1..])
      && forall i | 1 <= i < |ms| :: ms[i].key != ms[0].key
  }

  // ---- dotted names are unique -----------------------------------------------------

  function Tail(p: seq<string>): string { if p == [] then "" else "." + p[0] + Tail(p[1..]) }

  /** The dotted name of a path below a prefix. */
  function Dotted(prefix: string, p: seq<string>): string
  {
    if prefix != "" then prefix + Tail(p) else if p == [] then "" else p[0] + Tail(p[1..])
  }

  lemma DottedStep(prefix: string, k: string, p: seq<string>)
    requires k != ""
    ensures Dotted(prefix, [k] + p) == Dotted(Key(prefix, k), p)
  {
    assert ([k] + p)[1..] == p;
    assert prefix + ("." + k + Tail(p)) == (prefix + "." + k) + Tail(p);
  }

  /** A dot-free head before nothing or a dot is recognisable. */
  lemma HeadUnique(a: string, r: string, b: string, s: string)
    requires a + r == b + s && DotFree(a) && DotFree(b)
    requires (r == "" || r[0] == '.') && (s == "" || s[0] == '.')
    ensures a == b && r == s
  {
    HeadNotShorter(a, r, b, s);
    HeadNotShorter(b, s, a, r);
    assert a == (a + r)[..|a|] && b == (b + s)[..|b|];
    assert r == (a + r)[|a|..] && s == (b + s)[|b|..];
  }

  lemma {:induction false} HeadNotShorter(a: string, r: string, b: string, s: string)
    requires a + r == b + s && DotFree(b) && (r == "" || r[0] == '.')
    ensures |b| <= |a|
  {
    if a == "" {
      assert r == a + r;
    } else if b != "" {
      assert a[1..] + r == (a + r)[1..] == (b + s)[1..] == b[1..] + s;
      HeadNotShorter(a[1..], r, b[1..], s);
    }
  }

  lemma {:induction false} TailInjective(p: seq<string>, q: seq<string>)
    requires SafePath(p) && SafePath(q) && Tail(p) == Tail(q)
    ensures p == q
    decreases |p|
  {
    if p != [] && q != [] {
      var r, s := Tail(p[1..]), Tail(q[1..]);
      assert p[0] + r == ("." + p[0] + r)[1..] && q[0] + s == ("." + q[0] + s)[1..];
      assert SafeKey(p[0]) && SafeKey(q[0]);
      HeadUnique(p[0], r, q[0], s);
      TailInjective(p[1..], q[1..]);
      assert p == [p[0]] + p[1..] && q == [q[0]] + q[1..];
    }
  }

  /** Different safe paths have different dotted names. */
  lemma DottedInjective(prefix: string, p: seq<string>, q: seq<string>)
    requires SafePath(p) && SafePath(q) && Dotted(prefix, p) == Dotted(prefix, q)
    ensures p == q
  {
    assert p != [] ==> SafeKey(p[0]);
    assert q != [] ==> SafeKey(q[0]);
    if prefix != "" {
      assert Tail(p) == Dotted(prefix, p)[|prefix|..] && Tail(q) == Dotted(prefix, q)[|prefix|..];
      TailInjective(p, q);
    } else if p != [] && q != [] {
      assert SafeKey(p[0]) && SafeKey(q[0]);
      HeadUnique(p[0], Tail(p[1..]), q[0], Tail(q[1..]));
      TailInjective(p[1..], q[1..]);
      assert p == [p[0]] + p[1..] && q == [q[0]] + q[1..];
    }
  }

  // ---- flattening loses nothing -----------------------------------------------------

  /** Every flat key is the dotted name of some safe path. */
  lemma {:induction false} PathOf(v: Tree, prefix: string, key: string) returns (p: seq<string>)
    requires Safe(v) && key in FlattenJson(v, prefix)
    ensures SafePath(p) && key == Dotted(prefix, p)
    decreases v, 1
  {
    match v
    case Leaf(_) => p := [];
    case Node(ms) => p := PathUnder(ms, prefix, key);
  }

  lemma {:induction false} PathUnder(ms: seq<Member>, prefix: string, key: string) returns (p: seq<string>)
    requires SafeMembers(ms) && key in FlattenMembers(ms, prefix)
    ensures p != [] && SafePath(p) && key == Dotted(prefix, p)
    ensures exists i :: 0 <= i < |ms| && ms[i].key == p[0]
    decreases ms, 0
  {
    if key in FlattenMembers(ms[1..], prefix) {
      p := PathUnder(ms[1..], prefix, key);
      var i :| 0 <= i < |ms[1..]| && ms[1..][i].key == p[0];
      assert ms[i + 1].key == p[0];
    } else {
      var rest := PathOf(ms[0].value, Key(prefix, ms[0].key), key);
      DottedStep(prefix, ms[0].key, rest);
      p := [ms[0].key] + rest;
    }
  }

  /** Looking a safe path up in the flat map is walking it in the tree. */
  lemma {:induction false} FlatIsTree(v: Tree, prefix: string, p: seq<string>)
    requires Safe(v) && SafePath(p)
    ensures At(FlattenJson(v, prefix), Dotted(prefix, p)) == LeafAt(v, p)
    decreases v, 1
  {
    match v
    case Leaf(_) => if p == [] { assert Dotted(prefix, p) == prefix; } else { DifferentNames(prefix, p); }
    case Ignored =>
    case Node(ms) =>
      if p == [] {
        if Dotted(prefix, p) in FlattenMembers(ms, prefix) {
          var q := PathUnder(ms, prefix, Dotted(prefix, p));
          DottedInjective(prefix, p, q);
        }
      } else {
        FlatIsTreeUnder(ms, prefix, p);
      }
  }

  lemma DifferentNames(prefix: string, p: seq<string>)
    requires SafePath(p) && p != []
    ensures Dotted(prefix, p) != prefix
  {
    if Dotted(prefix, p) == prefix {
      assert Dotted(prefix, []) == prefix;
      DottedInjective(prefix, p, []);
    }
  }

  lemma {:induction false} FlatIsTreeUnder(ms: seq<Member>, prefix: string, p: seq<string>)
    requires SafeMembers(ms) && SafePath(p) && p != []
    ensures At(FlattenMembers(ms, prefix), Dotted(prefix, p)) == LeafUnder(ms, p)
    decreases ms, 0
  {
    if ms != [] {
      var key := Dotted(prefix, p);
      var k, child := ms[0].key, ms[0].value;
      FlatIsTreeUnder(ms[1..], prefix, p);
      if k == p[0] {
        NotAmongLater(ms, prefix, p);
        assert p == [k] + p[1..];
        DottedStep(prefix, k, p[1..]);
        FlatIsTree(child, Key(prefix, k), p[1..]);
      } else {
        NotUnderFirst(ms, prefix, p);
      }
    }
  }

  lemma NotAmongLater(ms: seq<Member>, prefix: string, p: seq<string>)
    requires ms != [] && SafeMembers(ms) && SafePath(p) && p != [] && ms[0].key == p[0]
    ensures Dotted(prefix, p) !in FlattenMembers(ms[1..], prefix)
  {
    if Dotted(prefix, p) in FlattenMembers(ms[1..], prefix) {
      var q := PathUnder(ms[1..], prefix, Dotted(prefix, p));
      DottedInjective(prefix, p, q);
    }
  }

  lemma NotUnderFirst(ms: seq<Member>, prefix: string, p: seq<string>)
    requires ms != [] && SafeMembers(ms) && SafePath(p) && p != [] && ms[0].key != p[0]
    ensures Dotted(prefix, p) !in FlattenJson(ms[0].value, Key(prefix, ms[0].key))
  {
    var k := ms[0].key;
    if Dotted(prefix, p) in FlattenJson(ms[0].value, Key(prefix, k)) {
      var rest := PathOf(ms[0].value, Key(prefix, k), Dotted(prefix, p));
      DottedStep(prefix, k, rest);
      DottedInjective(prefix, p, [k] + rest);
    }
  }

  /** Round trip: the flat map of a safe tree gives back every string leaf at its path, holds
      nothing else, and two safe trees with one flat map have the same leaves. */
  lemma FlattenLosesNothing(v: Tree, w: Tree)
    requires Safe(v) && Safe(w)
    ensures forall p | SafePath(p) :: At(FlattenJson(v, ""), Dotted("", p)) == LeafAt(v, p)
    ensures forall key | key in FlattenJson(v, "") ::
              exists p :: SafePath(p) && key == Dotted("", p) && LeafAt(v, p).Some?
    ensures FlattenJson(v, "") == FlattenJson(w, "") ==> forall p | SafePath(p) :: LeafAt(v, p) == LeafAt(w, p)
  {
    forall p | SafePath(p) ensures At(FlattenJson(v, ""), Dotted("", p)) == LeafAt(v, p) { FlatIsTree(v, "", p); }
    forall p | SafePath(p) ensures At(FlattenJson(w, ""), Dotted("", p)) == LeafAt(w, p) { FlatIsTree(w, "", p); }
    forall key | key in FlattenJson(v, "")
      ensures exists p :: SafePath(p) && key == Dotted("", p) && LeafAt(v, p).Some?
    {
      var p := PathOf(v, "", key);
      FlatIsTree(v, "", p);
    }
  }

  // ---- exactly when nothing is lost -----------------------------------------------------

  /** No object has a key twice: true of everything a JSON parser hands out. */
  predicate Tidy(v: Tree)
    decreases v, 1
  {
    v.Node? ==> TidyMembers(v.members)
  }

  predicate TidyMembers(ms: seq<Member>)
    decreases ms, 0
  {
    ms != [] ==>
      && Tidy(ms[0].value) && TidyMembers(ms[1..])
      && forall i | 1 <= i < |ms| :: ms[i].key != ms[0].key
  }

  /** The flat key of a path, for any keys whatever. */
  function FlatName(prefix: string, p: seq<string>): string
    decreases |p|
  {
    if p == [] then prefix else FlatName(Key(prefix, p[0]), p[1..])
  }

  /** Every leaf has its flat key in the flat map. */
  lemma {:induction false} LeafIsNamed(v: Tree, prefix: string, p: seq<string>)
    requires LeafAt(v, p).Some?
    ensures FlatName(prefix, p) in FlattenJson(v, prefix)
    decreases v, 1
  {
    if v.Node? { LeafIsNamedUnder(v.members, prefix, p); }
  }

  lemma {:induction false} LeafIsNamedUnder(ms: seq<Member>, prefix: string, p: seq<string>)
    requires p != [] && LeafUnder(ms, p).Some?
    ensures FlatName(prefix, p) in FlattenMembers(ms, prefix)
    decreases ms, 0
  {
    if ms[0].key == p[0] {
      LeafIsNamed(ms[0].value, Key(prefix, p[0]), p[1..]);
    } else {
      LeafIsNamedUnder(ms[1..], prefix, p);
    }
  }

  /** Every entry of the flat map is the text of some leaf of that name. */
  lemma {:induction false} EntryIsLeaf(v: Tree, prefix: string, key: string) returns (p: seq<string>)
    requires Tidy(v) && key in FlattenJson(v, prefix)
    ensures FlatName(prefix, p) == key && LeafAt(v, p) == Some(FlattenJson(v, prefix)[key])
    decreases v, 1
  {
    match v
    case Leaf(_) => p := [];
    case Node(ms) => p := EntryIsLeafUnder(ms, prefix, key);
  }

  lemma {:induction false} EntryIsLeafUnder(ms: seq<Member>, prefix: string, key: string) returns (p: seq<string>)
    requires TidyMembers(ms) && key in FlattenMembers(ms, prefix)
    ensures p != [] && FlatName(prefix, p) == key
    ensures LeafUnder(ms, p) == Some(FlattenMembers(ms, prefix)[key])
    decreases ms, 0
  {
    if key in FlattenMembers(ms[1..], prefix) {
      p := EntryIsLeafUnder(ms[1..], prefix, key);
      LeafHasMember(ms[1..], p);
    } else {
      var rest := EntryIsLeaf(ms[0].value, Key(prefix, ms[0].key), key);
      p := [ms[0].key] + rest;
      assert p[1..] == rest;
    }
  }

  lemma {:induction false} LeafHasMember(ms: seq<Member>, p: seq<string>)
    requires p != [] && LeafUnder(ms, p).Some?
    ensures exists i :: 0 <= i < |ms| && ms[i].key == p[0]
    decreases ms
  {
    if ms[0].key != p[0] {
      LeafHasMember(ms[1..], p);
      var i :| 0 <= i < |ms[1..]| && ms[1..][i].key == p[0];
      assert ms[i + 1].key == p[0];
    }
  }

  ghost predicate KeepsEveryLeaf(v: Tree)
  {
    forall p | LeafAt(v, p).Some? :: At(FlattenJson(v, ""), FlatName("", p)) == LeafAt(v, p)
  }

  /** Leaves of one flat name carry one text. */
  ghost predicate NamesTellTextsApart(v: Tree)
  {
    forall p, q | LeafAt(v, p).Some? && LeafAt(v, q).Some? && FlatName("", p) == FlatName("", q) ::
      LeafAt(v, p) == LeafAt(v, q)
  }

  /** Exactly when flattening keeps every leaf, for every tree a parser can hand out: no two
      leaves with different texts fall on one flat name. */
  lemma KeepsEveryLeafIff(v: Tree)
    requires Tidy(v)
    ensures KeepsEveryLeaf(v) <==> NamesTellTextsApart(v)
  {
    forall p | LeafAt(v, p).Some? ensures FlatName("", p) in FlattenJson(v, "") { LeafIsNamed(v, "", p); }
    if NamesTellTextsApart(v) {
      forall p | LeafAt(v, p).Some? ensures At(FlattenJson(v, ""), FlatName("", p)) == LeafAt(v, p) {
        var q := EntryIsLeaf(v, "", FlatName("", p));
      }
    }
    if KeepsEveryLeaf(v) {
      forall p, q | LeafAt(v, p).Some? && LeafAt(v, q).Some? && FlatName("", p) == FlatName("", q)
        ensures LeafAt(v, p) == LeafAt(v, q)
      {
        assert At(FlattenJson(v, ""), FlatName("", p)) == LeafAt(v, p);
        assert At(FlattenJson(v, ""), FlatName("", q)) == LeafAt(v, q);
      }
    }
  }

  lemma {:induction false} SafeIsTidy(v: Tree)
    requires Safe(v)
    ensures Tidy(v)
    decreases v, 1
  {
    if v.Node? { SafeIsTidyUnder(v.members); }
  }

  lemma {:induction false} SafeIsTidyUnder(ms: seq<Member>)
    requires SafeMembers(ms)
    ensures TidyMembers(ms)
    decreases ms, 0
  {
    if ms != [] {
      SafeIsTidy(ms[0].value);
      SafeIsTidyUnder(ms[1..]);
    }
  }

  lemma {:induction false} LeavesOfSafeTrees(v: Tree, p: seq<string>)
    requires Safe(v) && LeafAt(v, p).Some?
    ensures SafePath(p)
    decreases v, 1
  {
    if v.Node? { LeavesUnderSafe(v.members, p); }
  }

  lemma {:induction false} LeavesUnderSafe(ms: seq<Member>, p: seq<string>)
    requires SafeMembers(ms) && p != [] && LeafUnder(ms, p).Some?
    ensures SafePath(p)
    decreases ms, 0
  {
    if ms[0].key == p[0] {
      LeavesOfSafeTrees(ms[0].value, p[1..]);
      assert p == [p[0]] + p[1..];
    } else {
      LeavesUnderSafe(ms[1..], p);
    }
  }

  lemma {:induction false} SafeFlatName(prefix: string, p: seq<string>)
    requires SafePath(p)
    ensures FlatName(prefix, p) == Dotted(prefix, p)
    decreases |p|
  {
    if p != [] {
      assert SafeKey(p[0]);
      SafeFlatName(Key(prefix, p[0]), p[1..]);
      DottedStep(prefix, p[0], p[1..]);
      assert p == [p[0]] + p[1..];
    }
  }

  /** Non-empty, dot-free keys are enough. */
  lemma SafeTreesKeepEveryLeaf(v: Tree)
    requires Safe(v)
    ensures KeepsEveryLeaf(v)
  {
    SafeIsTidy(v);
    forall p, q | LeafAt(v, p).Some? && LeafAt(v, q).Some? && FlatName("", p) == FlatName("", q)
      ensures LeafAt(v, p) == LeafAt(v, q)
    {
      LeavesOfSafeTrees(v, p);
      LeavesOfSafeTrees(v, q);
      SafeFlatName("", p);
      SafeFlatName("", q);
      DottedInjective("", p, q);
    }
    KeepsEveryLeafIff(v);
  }

  /** A dotted key that meets a nested one: `{"a": {"b": "2"}, "a.b": "1"}`. */
  lemma DottedKeyLoses()
    ensures var v := Node([Member("a", Node([Member("b", Leaf("2"))])), Member("a.b", Leaf("1"))]);
            LeafAt(v, ["a", "b"]) == Some("2") && FlattenJson(v, "") == map["a.b" := "1"]
  {
    var inner := [Member("b", Leaf("2"))];
    var ms := [Member("a", Node(inner)), Member("a.b", Leaf("1"))];
    assert Key("a", "b") == "a.b";
    assert inner[1..] == [] && FlattenMembers(inner, "a") == map["a.b" := "2"];
    assert ms[1..] == [Member("a.b", Leaf("1"))] && ms[1..][1..] == [];
    assert FlattenMembers(ms[1..], "") == map["a.b" := "1"];
    assert ["a", "b"][1..] == ["b"];
    assert LeafUnder(inner, ["b"]) == Some("2");
  }

  /** An empty key that meets a plain one: `{"": {"a": "1"}, "a": "2"}`. */
  lemma EmptyKeyLoses()
    ensures var v := Node([Member("", Node([Member("a", Leaf("1"))])), Member("a", Leaf("2"))]);
            LeafAt(v, ["", "a"]) == Some("1") && FlattenJson(v, "") == map["a" := "2"]
  {
    var inner := [Member("a", Leaf("1"))];
    var ms := [Member("", Node(inner)), Member("a", Leaf("2"))];
    assert inner[1..] == [] && FlattenMembers(inner, "") == map["a" := "1"];
    assert ms[1..] == [Member("a", Leaf("2"))] && ms[1..][1..] == [];
    assert FlattenMembers(ms[1..], "") == map["a" := "2"];
    assert ["", "a"][1..] == ["a"];
    assert LeafUnder(inner, ["a"]) == Some("1");
  }
}
