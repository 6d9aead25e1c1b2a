/** Write guards over the tenant-scoped entity table: snapshot, diff, compare-and-swap
    transaction, one retry. The table is shared by any number of replicas. */
module EntityStore {
  import opened Prelude
  import opened Values

  type Uuid = nat

  datatype TableKey = TableKey(tenant: Uuid, entityType: string, id: Uuid)

  type Rows = map<TableKey, Json>

  /** One tenant's entities of one type, by id. */
  type Local = map<Uuid, Json>

  /** What a guard asks the database to do: write `values`, delete `removed`, both against the
      snapshot `original`. */
  datatype Change = Change(tenant: Uuid, entityType: string, original: Local, values: Local, removed: set<Uuid>)
  {
    predicate Touches(k: TableKey)
    {
      k.tenant == tenant && k.entityType == entityType && (k.id in values || k.id in removed)
    }

    /** What the guard believed the row to hold. */
    function Snapshot(k: TableKey): Option<Json> { At(original, k.id) }

    function Written(k: TableKey): Option<Json> { At(values, k.id) }

    predicate Empty() { values == map[] && removed == {} }

    /** No id is both written and deleted. */
    ghost predicate Apart() { values.Keys !! removed }

    /** Nothing is written that the snapshot already held. */
    ghost predicate Minimal() { forall id | id in values :: At(original, id) != Some(values[id]) }
  }

  // ---- diff and patch ------------------------------------------------------------

  /** The change that takes the snapshot to the working map. */
  function Diff(tenant: Uuid, entityType: string, original: Local, working: Local): Change
  {
    Change(tenant, entityType, original,
           map id | id in working && At(original, id) != Some(working[id]) :: working[id],
           set id | id in original && id !in working)
  }

  function PatchLocal(original: Local, values: Local, removed: set<Uuid>): Local { (original + values) - removed }

  /** Round trip: patching the snapshot with its diff gives the working map; the two parts are
      apart; deletions were in the snapshot. */
  lemma DiffPatches(tenant: Uuid, entityType: string, original: Local, working: Local)
    ensures var d := Diff(tenant, entityType, original, working);
            && PatchLocal(original, d.values, d.removed) == working
            && d.Apart() && d.removed <= original.Keys && d.Minimal()
            && (d.Empty() <==> original == working)
  {
    var d := Diff(tenant, entityType, original, working);
    var p := PatchLocal(original, d.values, d.removed);
    forall id ensures At(p, id) == At(working, id) {}
    SameMap(p, working);
    if d.Empty() {
      forall id ensures At(original, id) == At(working, id) {
        assert id in d.values <==> id in working && At(original, id) != Some(working[id]);
        assert id in d.removed <==> id in original && id !in working;
      }
      SameMap(original, working);
    }
  }

  /** No smaller change does the same: whatever reaches the working map writes and deletes at
      least these ids. */
  lemma DiffIsLeast(tenant: Uuid, entityType: string, original: Local, working: Local, values: Local, removed: set<Uuid>)
    requires PatchLocal(original, values, removed) == working
    ensures var d := Diff(tenant, entityType, original, working);
            d.values.Keys <= values.Keys && d.removed <= removed
  {
    var d := Diff(tenant, entityType, original, working);
    forall id | id in d.values ensures id in values {
      assert At(PatchLocal(original, values, removed), id) == Some(working[id]);
    }
  }

  // ---- the transaction -----------------------------------------------------------

  /** The row no longer holds what the guard's snapshot said. */
  predicate Moved(rows: Rows, ch: Change, id: Uuid)
  {
    At(rows, TableKey(ch.tenant, ch.entityType, id)) != At(ch.original, id)
  }

  /** The ids of `ids` the transaction refuses to write. */
  function Stale(rows: Rows, ch: Change, ids: set<Uuid>): set<Uuid> { set id | id in ids && Moved(rows, ch, id) }

  /** The ids of `ids` it refuses to delete; one the snapshot never had is always refused. */
  function Gone(rows: Rows, ch: Change, ids: set<Uuid>): set<Uuid>
  {
    set id | id in ids && (id !in ch.original || Moved(rows, ch, id))
  }

  predicate Unmoved(rows: Rows, ch: Change)
  {
    Stale(rows, ch, ch.values.Keys) == {} && Gone(rows, ch, ch.removed) == {}
  }

  function Patched(rows: Rows, ch: Change): Rows
  {
    (map k | k in rows && !ch.Touches(k) :: rows[k])
    + (map k | k in (set id | id in ch.values :: TableKey(ch.tenant, ch.entityType, id)) :: ch.values[k.id])
  }

  lemma PatchedAt(rows: Rows, ch: Change, k: TableKey)
    requires ch.Apart()
    ensures At(Patched(rows, ch), k) == if ch.Touches(k) then ch.Written(k) else At(rows, k)
  {
  }

  datatype Fault = Healthy | StatementFails | CommitReplyLost

  datatype Attempt = Committed | Conflicted(ids: set<Uuid>) | Unavailable

  /** Does the attempt take effect, and is the caller told so? */
  predicate Lands(rows: Rows, ch: Change, fault: Fault) { !fault.StatementFails? && Unmoved(rows, ch) }

  predicate Told(rows: Rows, ch: Change, fault: Fault) { fault.Healthy? && Unmoved(rows, ch) }

  function AfterAttempt(rows: Rows, ch: Change, fault: Fault): Rows
  {
    if Lands(rows, ch, fault) then Patched(rows, ch) else rows
  }

  /** Nothing has moved iff every touched row reads as in the snapshot. */
  lemma UnmovedExactly(rows: Rows, ch: Change)
    requires ch.removed <= ch.original.Keys
    ensures Unmoved(rows, ch) <==> forall k | ch.Touches(k) :: At(rows, k) == ch.Snapshot(k)
  {
    if Unmoved(rows, ch) {
      forall k | ch.Touches(k) ensures At(rows, k) == ch.Snapshot(k) { UnmovedMeansSeen(rows, ch, k); }
    }
    if forall k | ch.Touches(k) :: At(rows, k) == ch.Snapshot(k) {
      forall id | id in ch.values || id in ch.removed ensures !Moved(rows, ch, id) {
        assert ch.Touches(KeyOf(ch, id));
      }
    }
  }

  /** The ids a refusal names: exactly the written ones whose rows differ from the snapshot, and
      exactly the deleted ones whose rows do, or that the snapshot never had. */
  lemma RefusalNamesTheMoved(rows: Rows, ch: Change, id: Uuid)
    ensures var now, was := At(rows, TableKey(ch.tenant, ch.entityType, id)), At(ch.original, id);
            && (id in Stale(rows, ch, ch.values.Keys) <==> id in ch.values && now != was)
            && (id in Gone(rows, ch, ch.removed) <==> id in ch.removed && (was.None? || now != was))
  {
  }

  class Database {
    var rows: Rows

    constructor (rows: Rows)
      ensures this.rows == rows
    {
      this.rows := rows;
    }

    /** One transaction: conditional update or insert per dirty id, then conditional delete per
        removed id; any row that did not match rolls everything back. */
    method PersistChanges(ch: Change, fault: Fault) returns (r: Attempt)
      requires ch.Apart()
      modifies this
      ensures fault.StatementFails? ==> r == Unavailable && rows == old(rows)
      ensures !fault.StatementFails? ==>
        var stale := Stale(old(rows), ch, ch.values.Keys);
        var gone := Gone(old(rows), ch, ch.removed);
        && rows == (if Unmoved(old(rows), ch) then Patched(old(rows), ch) else old(rows))
        && r == if stale != {} then Conflicted(stale)
                else if gone != {} then Conflicted(gone)
                else if fault.CommitReplyLost? then Unavailable
                else Committed
    {
      if fault.StatementFails? { return Unavailable; }
      var tx, conflicts := WriteDirty(rows, ch);
      if conflicts != {} { return Conflicted(conflicts); }
      tx, conflicts := DeleteRemoved(rows, tx, ch);
      if conflicts != {} { return Conflicted(conflicts); }
      forall k ensures At(tx, k) == At(Patched(rows, ch), k) {
        PatchedAt(rows, ch, k);
        assert k.id !in Stale(rows, ch, ch.values.Keys) && k.id !in Gone(rows, ch, ch.removed);
      }
      SameMap(tx, Patched(rows, ch));
      rows := tx;
      r := if fault.CommitReplyLost? then Unavailable else Committed;
    }

    /** What other replicas do to the table while a guard waits. */
    method Meanwhile(tries: seq<Try>)
      modifies this
      ensures rows == RunTries(Store(old(rows), []), tries).rows
    {
      ghost var s := Store(rows, []);
      for i := 0 to |tries|
        invariant s.rows == rows && RunTries(s, tries[i..]) == RunTries(Store(old(rows), []), tries)
      {
        var t := tries[i];
        assert tries[i..][1..] == tries[i + 1..];
        DiffPatches(t.tenant, t.entityType, t.original, t.working);
        var _ := PersistChanges(t.Ask(), t.fault);
        s := Land(s, t);
      }
    }
  }

  /** The transaction's view of a row once the ids in `written` and `deleted` were processed. */
  function InTx(rows: Rows, ch: Change, written: set<Uuid>, deleted: set<Uuid>, k: TableKey): Option<Json>
  {
    if !ch.Touches(k) then At(rows, k)
    else if k.id in written && !Moved(rows, ch, k.id) then ch.Written(k)
    else if k.id in deleted && k.id in ch.original && !Moved(rows, ch, k.id) then None
    else At(rows, k)
  }

  ghost predicate Reflects(tx: Rows, rows: Rows, ch: Change, written: set<Uuid>, deleted: set<Uuid>)
  {
    forall k :: At(tx, k) == InTx(rows, ch, written, deleted, k)
  }

  function KeyOf(ch: Change, id: Uuid): TableKey { TableKey(ch.tenant, ch.entityType, id) }

  /** `UPDATE ... WHERE data = prev` when the snapshot has the id, `INSERT ... ON CONFLICT DO
      NOTHING` when it has not; zero rows affected is a conflict. */
  method WriteOne(tx: Rows, ch: Change, id: Uuid) returns (after: Rows, conflict: bool)
    requires id in ch.values
    ensures conflict <==> Moved(tx, ch, id)
    ensures after == if conflict then tx else tx[KeyOf(ch, id) := ch.values[id]]
  {
    var k := KeyOf(ch, id);
    after, conflict := tx, true;
    if id in ch.original {
      if k in tx && tx[k] == ch.original[id] {
        after, conflict := tx[k := ch.values[id]], false;
      }
    } else if k !in tx {
      after, conflict := tx[k := ch.values[id]], false;
    }
  }

  /** `DELETE ... WHERE data = prev`; an id the snapshot never had is a conflict. */
  method DeleteOne(tx: Rows, ch: Change, id: Uuid) returns (after: Rows, conflict: bool)
    ensures conflict <==> id !in ch.original || Moved(tx, ch, id)
    ensures after == if conflict then tx else tx - {KeyOf(ch, id)}
  {
    var k := KeyOf(ch, id);
    after, conflict := tx, true;
    if id in ch.original {
      if k in tx && tx[k] == ch.original[id] {
        after, conflict := tx - {k}, false;
      }
    }
  }

  lemma WriteOneReflects(rows: Rows, ch: Change, tx: Rows, done: set<Uuid>, id: Uuid)
    requires Reflects(tx, rows, ch, done, {}) && id in ch.values && id !in done
    ensures Moved(tx, ch, id) == Moved(rows, ch, id)
    ensures Moved(rows, ch, id) ==> Reflects(tx, rows, ch, done + {id}, {})
    ensures !Moved(rows, ch, id) ==> Reflects(tx[KeyOf(ch, id) := ch.values[id]], rows, ch, done + {id}, {})
    ensures Stale(rows, ch, done + {id}) == Stale(rows, ch, done) + if Moved(rows, ch, id) then {id} else {}
  {
    var k := KeyOf(ch, id);
    assert At(tx, k) == InTx(rows, ch, done, {}, k);
    var after := tx[k := ch.values[id]];
    forall j ensures !Moved(rows, ch, id) ==> At(after, j) == InTx(rows, ch, done + {id}, {}, j) {
      assert At(tx, j) == InTx(rows, ch, done, {}, j);
    }
    forall j ensures Moved(rows, ch, id) ==> At(tx, j) == InTx(rows, ch, done + {id}, {}, j) {
      assert At(tx, j) == InTx(rows, ch, done, {}, j);
    }
  }

  lemma DeleteOneReflects(rows: Rows, ch: Change, tx: Rows, done: set<Uuid>, id: Uuid)
    requires ch.Apart() && Reflects(tx, rows, ch, ch.values.Keys, done) && id in ch.removed && id !in done
    ensures Moved(tx, ch, id) == Moved(rows, ch, id)
    ensures id !in ch.original || Moved(rows, ch, id) ==> Reflects(tx, rows, ch, ch.values.Keys, done + {id})
    ensures !(id !in ch.original || Moved(rows, ch, id)) ==>
              Reflects(tx - {KeyOf(ch, id)}, rows, ch, ch.values.Keys, done + {id})
    ensures Gone(rows, ch, done + {id})
         == Gone(rows, ch, done) + if id !in ch.original || Moved(rows, ch, id) then {id} else {}
  {
    var k := KeyOf(ch, id);
    assert At(tx, k) == InTx(rows, ch, ch.values.Keys, done, k);
    var after := tx - {k};
    forall j ensures !(id !in ch.original || Moved(rows, ch, id)) ==>
      At(after, j) == InTx(rows, ch, ch.values.Keys, done + {id}, j)
    {
      assert At(tx, j) == InTx(rows, ch, ch.values.Keys, done, j);
    }
    forall j ensures id !in ch.original || Moved(rows, ch, id) ==>
      At(tx, j) == InTx(rows, ch, ch.values.Keys, done + {id}, j)
    {
      assert At(tx, j) == InTx(rows, ch, ch.values.Keys, done, j);
    }
  }

  /** What the two loops have established after the ids in `done`. */
  ghost predicate Writing(tx: Rows, conflicts: set<Uuid>, rows: Rows, ch: Change, done: set<Uuid>)
  {
    Reflects(tx, rows, ch, done, {}) && conflicts == Stale(rows, ch, done)
  }

  ghost predicate Deleting(tx: Rows, conflicts: set<Uuid>, rows: Rows, ch: Change, done: set<Uuid>)
  {
    Reflects(tx, rows, ch, ch.values.Keys, done) && conflicts == Gone(rows, ch, done)
  }

  lemma WritingStep(tx: Rows, conflicts: set<Uuid>, rows: Rows, ch: Change, done: set<Uuid>, id: Uuid,
                    after: Rows, conflict: bool)
    requires Writing(tx, conflicts, rows, ch, done) && id in ch.values && id !in done
    requires conflict == Moved(tx, ch, id)
    requires after == if conflict then tx else tx[KeyOf(ch, id) := ch.values[id]]
    ensures Writing(after, conflicts + if conflict then {id} else {}, rows, ch, done + {id})
  {
    WriteOneReflects(rows, ch, tx, done, id);
  }

  lemma DeletingStep(tx: Rows, conflicts: set<Uuid>, rows: Rows, ch: Change, done: set<Uuid>, id: Uuid,
                     after: Rows, conflict: bool)
    requires ch.Apart() && Deleting(tx, conflicts, rows, ch, done) && id in ch.removed && id !in done
    requires conflict == (id !in ch.original || Moved(tx, ch, id))
    requires after == if conflict then tx else tx - {KeyOf(ch, id)}
    ensures Deleting(after, conflicts + if conflict then {id} else {}, rows, ch, done + {id})
  {
    DeleteOneReflects(rows, ch, tx, done, id);
  }

  /** The first loop of the transaction, in whatever order the hash map yields the entries. */
  method WriteDirty(rows: Rows, ch: Change) returns (tx: Rows, conflicts: set<Uuid>)
    ensures Writing(tx, conflicts, rows, ch, ch.values.Keys)
  {
    tx, conflicts := rows, {};
    var todo := ch.values.Keys;
    ghost var done: set<Uuid> := {};
    while todo != {}
      invariant todo !! done && todo + done == ch.values.Keys
      invariant Writing(tx, conflicts, rows, ch, done)
      decreases todo
    {
      var id :| id in todo;
      var after, conflict := WriteOne(tx, ch, id);
      WritingStep(tx, conflicts, rows, ch, done, id, after, conflict);
      tx, conflicts := after, conflicts + if conflict then {id} else {};
      todo, done := todo - {id}, done + {id};
    }
    assert done == ch.values.Keys;
  }

  /** The second loop. */
  method DeleteRemoved(rows: Rows, before: Rows, ch: Change) returns (tx: Rows, conflicts: set<Uuid>)
    requires ch.Apart() && Writing(before, {}, rows, ch, ch.values.Keys)
    ensures Deleting(tx, conflicts, rows, ch, ch.removed)
  {
    tx, conflicts := before, {};
    var todo := ch.removed;
    ghost var done: set<Uuid> := {};
    while todo != {}
      invariant todo !! done && todo + done == ch.removed
      invariant Deleting(tx, conflicts, rows, ch, done)
      decreases todo
    {
      var id :| id in todo;
      var after, conflict := DeleteOne(tx, ch, id);
      DeletingStep(tx, conflicts, rows, ch, done, id, after, conflict);
      tx, conflicts := after, conflicts + if conflict then {id} else {};
      todo, done := todo - {id}, done + {id};
    }
    assert done == ch.removed;
  }

  // ---- any number of replicas ------------------------------------------------------

  /** One attempt by some guard of some replica, with whatever snapshot it had (fresh, stale, or
      from a cache) and whatever it made of it. Retries and drop fallbacks are attempts too. */
  datatype Try = Try(tenant: Uuid, entityType: string, original: Local, working: Local, fault: Fault)
  {
    function Ask(): Change { Diff(tenant, entityType, original, working) }
  }

  /** The table, and the changes that landed so far, oldest first. */
  datatype Store = Store(rows: Rows, landed: seq<Change>)

  function Land(s: Store, t: Try): Store
  {
    if !Lands(s.rows, t.Ask(), t.fault) then s
    else Store(Patched(s.rows, t.Ask()), s.landed + [t.Ask()])
  }

  function RunTries(s: Store, tries: seq<Try>): Store
    decreases |tries|
  {
    if tries == [] then s else RunTries(Land(s, tries[0]), tries[1..])
  }

  /** What the landed changes make of a row that started as `first`. */
  function Current(first: Option<Json>, landed: seq<Change>, k: TableKey): Option<Json>
    decreases |landed|
  {
    if landed == [] then first
    else
      var last := landed[|landed| - 1];
      if last.Touches(k) then last.Written(k) else Current(first, landed[..|landed| - 1], k)
  }

  /** Every landed change found each row it touched exactly as its own snapshot had it, which is
      what the latest earlier change to that row wrote: no write is ever built on, or wiped out
      by, one that did not see it. And the table is what the changes add up to. */
  ghost predicate Chained(first: Rows, s: Store)
  {
    && (forall k :: At(s.rows, k) == Current(At(first, k), s.landed, k))
    && (forall j, k | 0 <= j < |s.landed| && s.landed[j].Touches(k) ::
          s.landed[j].Snapshot(k) == Current(At(first, k), s.landed[..j], k))
  }

  lemma LandKeepsChain(first: Rows, s: Store, t: Try)
    requires Chained(first, s)
    ensures Chained(first, Land(s, t))
  {
    var ch := t.Ask();
    var s' := Land(s, t);
    if !t.fault.StatementFails? && Unmoved(s.rows, ch) {
      DiffPatches(t.tenant, t.entityType, t.original, t.working);
      assert s'.landed[..|s.landed|] == s.landed;
      forall k ensures At(s'.rows, k) == Current(At(first, k), s'.landed, k) {
        PatchedAt(s.rows, ch, k);
        assert At(s.rows, k) == Current(At(first, k), s.landed, k);
      }
      forall j, k | 0 <= j < |s'.landed| && s'.landed[j].Touches(k)
        ensures s'.landed[j].Snapshot(k) == Current(At(first, k), s'.landed[..j], k)
      {
        if j < |s.landed| {
          assert s'.landed[..j] == s.landed[..j] && s.landed[j].Touches(k);
        } else {
          UnmovedMeansSeen(s.rows, ch, k);
          assert At(s.rows, k) == Current(At(first, k), s.landed, k);
        }
      }
    }
  }

  lemma UnmovedMeansSeen(rows: Rows, ch: Change, k: TableKey)
    requires Unmoved(rows, ch) && ch.Touches(k)
    ensures At(rows, k) == ch.Snapshot(k)
  {
    assert k.id !in Stale(rows, ch, ch.values.Keys) && k.id !in Gone(rows, ch, ch.removed);
    assert k == TableKey(ch.tenant, ch.entityType, k.id);
  }

  /** No lost updates, over every interleaving of every replica's attempts. */
  lemma {:induction false} NoLostUpdates(first: Rows, s: Store, tries: seq<Try>)
    requires Chained(first, s)
    ensures Chained(first, RunTries(s, tries))
    decreases |tries|
  {
    if tries != [] {
      LandKeepsChain(first, s, tries[0]);
      NoLostUpdates(first, Land(s, tries[0]), tries[1..]);
    }
  }

  /** Attempts for other tenants or other types leave a row alone. */
  lemma {:induction false} TenantsAreApart(s: Store, tries: seq<Try>, k: TableKey)
    requires forall i | 0 <= i < |tries| :: tries[i].tenant != k.tenant || tries[i].entityType != k.entityType
    ensures At(RunTries(s, tries).rows, k) == At(s.rows, k)
    decreases |tries|
  {
    if tries != [] {
      DiffPatches(tries[0].tenant, tries[0].entityType, tries[0].original, tries[0].working);
      PatchedAt(s.rows, tries[0].Ask(), k);
      TenantsAreApart(Land(s, tries[0]), tries[1..], k);
    }
  }

  // ---- a retry after a lost reply -----------------------------------------------------

  lemma {:induction false} LandedGrows(s: Store, tries: seq<Try>)
    ensures s.landed <= RunTries(s, tries).landed
    decreases |tries|
  {
    if tries != [] { LandedGrows(Land(s, tries[0]), tries[1..]); }
  }

  /** Row `k` was written, as `v`, by the `j`-th landed change. */
  ghost predicate WroteAt(landed: seq<Change>, j: nat, k: TableKey, v: Option<Json>)
  {
    j < |landed| && landed[j].Touches(k) && landed[j].Written(k) == v
  }

  /** A row reads as before, or as the last change that landed on it wrote it. */
  lemma {:induction false} LastWriter(s: Store, tries: seq<Try>, k: TableKey)
    ensures var t := RunTries(s, tries);
            || At(t.rows, k) == At(s.rows, k)
            || exists j :: j >= |s.landed| && WroteAt(t.landed, j, k, At(t.rows, k))
    decreases |tries|
  {
    if tries != [] {
      var t0 := tries[0];
      var s' := Land(s, t0);
      DiffPatches(t0.tenant, t0.entityType, t0.original, t0.working);
      PatchedAt(s.rows, t0.Ask(), k);
      LastWriter(s', tries[1..], k);
      LandedGrows(s', tries[1..]);
      var t := RunTries(s, tries);
      if At(t.rows, k) == At(s'.rows, k) && At(s'.rows, k) != At(s.rows, k) {
        assert WroteAt(t.landed, |s.landed|, k, At(t.rows, k));
      }
    }
  }

  /** Exactly when a change lands a second time. Its commit took effect and the reply was lost;
      other replicas act; the guard tries again. The retry lands iff it reaches the table and
      every row it touches reads again as in the snapshot it was computed from. */
  lemma RetryLandsAgainIff(s: Store, t: Try, mid: seq<Try>, second: Fault)
    requires Lands(s.rows, t.Ask(), t.fault)
    ensures var met := RunTries(Land(s, t), mid);
            Land(met, t.(fault := second)).landed == met.landed + [t.Ask()] <==>
              (!second.StatementFails? && forall k | t.Ask().Touches(k) :: At(met.rows, k) == t.Ask().Snapshot(k))
  {
    var met := RunTries(Land(s, t), mid);
    DiffPatches(t.tenant, t.entityType, t.original, t.working);
    UnmovedExactly(met.rows, t.Ask());
    assert t.(fault := second).Ask() == t.Ask();
    assert |met.landed + [t.Ask()]| != |met.landed|;
  }

  /** For that, every touched row must have been rewritten in between, by some other landed
      change, to the very value the snapshot had. So with nobody else at those rows the retry
      conflicts and the change stands once. */
  lemma RetryNeedsRewrites(s: Store, t: Try, mid: seq<Try>, second: Fault, k: TableKey)
    requires Lands(s.rows, t.Ask(), t.fault) && t.Ask().Touches(k)
    requires var met := RunTries(Land(s, t), mid);
             Land(met, t.(fault := second)).landed == met.landed + [t.Ask()]
    ensures var met := RunTries(Land(s, t), mid);
            exists j :: j > |s.landed| && WroteAt(met.landed, j, k, t.Ask().Snapshot(k))
  {
    var ch, one := t.Ask(), Land(s, t);
    DiffPatches(t.tenant, t.entityType, t.original, t.working);
    PatchedAt(s.rows, ch, k);
    RetryLandsAgainIff(s, t, mid, second);
    LastWriter(one, mid, k);
    assert At(one.rows, k) == ch.Written(k) != ch.Snapshot(k);
  }

  /** It can happen, for any two values of any row: one guard takes it from `v` to `w` with the
      reply lost, another replica puts it back, and the retry writes `w` again. */
  lemma RetryCanLandTwice(rows: Rows, k: TableKey, v: Json, w: Json)
    requires At(rows, k) == Some(v) && v != w
    ensures var t := Try(k.tenant, k.entityType, map[k.id := v], map[k.id := w], CommitReplyLost);
            var u := Try(k.tenant, k.entityType, map[k.id := w], map[k.id := v], Healthy);
            RunTries(Store(rows, []), [t, u, t.(fault := Healthy)]).landed == [t.Ask(), u.Ask(), t.Ask()]
  {
    var was, now: Local := map[k.id := v], map[k.id := w];
    assert was[k.id] != now[k.id];
    var t, u := Try(k.tenant, k.entityType, was, now, CommitReplyLost), Try(k.tenant, k.entityType, now, was, Healthy);
    RelayLands(Store(rows, []), [t, u, t.(fault := Healthy)], k);
    assert Asks([t, u, t.(fault := Healthy)]) == [t.Ask(), u.Ask(), t.Ask()];
  }

  function Asks(tries: seq<Try>): seq<Change> { seq(|tries|, i requires 0 <= i < |tries| => tries[i].Ask()) }

  lemma AsksHead(tries: seq<Try>)
    requires tries != []
    ensures Asks(tries) == [tries[0].Ask()] + Asks(tries[1..])
  {
  }

  /** Attempts that change one row, each starting where the one before it ended. */
  ghost predicate Relay(tries: seq<Try>, k: TableKey)
  {
    && (forall i | 0 <= i < |tries| :: OneRow(tries[i], k))
    && (forall i | 0 < i < |tries| :: tries[i - 1].working == tries[i].original)
  }

  ghost predicate OneRow(t: Try, k: TableKey)
  {
    && t.tenant == k.tenant && t.entityType == k.entityType && !t.fault.StatementFails?
    && t.original.Keys == t.working.Keys == {k.id} && t.original != t.working
  }

  lemma {:induction false} RelayLands(s: Store, tries: seq<Try>, k: TableKey)
    requires Relay(tries, k) && (tries != [] ==> At(s.rows, k) == At(tries[0].original, k.id))
    ensures RunTries(s, tries).landed == s.landed + Asks(tries)
    decreases |tries|
  {
    if tries != [] {
      var t, rest := tries[0], tries[1..];
      LandsAt(s, t, k);
      assert forall i | 0 <= i < |rest| :: rest[i] == tries[i + 1];
      RelayLands(Land(s, t), rest, k);
      AsksHead(tries);
      Associate(s.landed, [t.Ask()], Asks(rest));
    }
  }

  /** A change of one existing row lands if the row reads as in its snapshot. */
  lemma LandsAt(s: Store, t: Try, k: TableKey)
    requires OneRow(t, k) && At(s.rows, k) == At(t.original, k.id)
    ensures Land(s, t).landed == s.landed + [t.Ask()]
    ensures At(Land(s, t).rows, k) == At(t.working, k.id)
  {
    var ch := t.Ask();
    DiffPatches(t.tenant, t.entityType, t.original, t.working);
    forall j | ch.Touches(j) ensures At(s.rows, j) == ch.Snapshot(j) { assert j == k; }
    UnmovedExactly(s.rows, ch);
    PatchedAt(s.rows, ch, k);
    if k.id !in ch.values { SameMap(t.original, t.working); }
  }

  // ---- conservation ------------------------------------------------------------------

  /** The change adds `By` to the integer in row `k` it read. */
  predicate Adds(ch: Change, k: TableKey)
  {
    && ch.Touches(k) && ch.Snapshot(k).Some? && ch.Snapshot(k).value.Integer?
    && ch.Written(k).Some? && ch.Written(k).value.Integer?
  }

  function By(ch: Change, k: TableKey): int
  {
    if Adds(ch, k) then ch.Written(k).value.i - ch.Snapshot(k).value.i else 0
  }

  function Total(landed: seq<Change>, k: TableKey): int
  {
    if landed == [] then 0 else Total(landed[..|landed| - 1], k) + By(landed[|landed| - 1], k)
  }

  ghost predicate OnlyAdds(landed: seq<Change>, k: TableKey)
  {
    forall j | 0 <= j < |landed| && landed[j].Touches(k) :: Adds(landed[j], k)
  }

  lemma {:induction false} CurrentAdds(first: Option<Json>, landed: seq<Change>, k: TableKey)
    requires first.Some? && first.value.Integer?
    requires OnlyAdds(landed, k)
    requires forall j | 0 <= j < |landed| && landed[j].Touches(k) ::
               landed[j].Snapshot(k) == Current(first, landed[..j], k)
    ensures Current(first, landed, k) == Some(Integer(first.value.i + Total(landed, k)))
    decreases |landed|
  {
    if landed != [] {
      var init := landed[..|landed| - 1];
      forall j | 0 <= j < |init| && init[j].Touches(k)
        ensures init[j].Snapshot(k) == Current(first, init[..j], k)
      {
        assert init[..j] == landed[..j] && landed[j].Touches(k);
      }
      CurrentAdds(first, init, k);
      assert landed[..|landed| - 1] == init;
    }
  }

  /** The classic lost-update test: if every guard that touches a counter adds to the value it
      read, then after any run the counter is its start plus every landed addition. */
  lemma CountersConserve(first: Rows, tries: seq<Try>, k: TableKey)
    requires k in first && first[k].Integer?
    requires OnlyAdds(RunTries(Store(first, []), tries).landed, k)
    ensures var s := RunTries(Store(first, []), tries);
            At(s.rows, k) == Some(Integer(first[k].i + Total(s.landed, k)))
  {
    NoLostUpdates(first, Store(first, []), tries);
    var s := RunTries(Store(first, []), tries);
    assert Chained(first, s);
    CurrentAdds(At(first, k), s.landed, k);
  }

  // ---- one guard ---------------------------------------------------------------------

  datatype StoreKey = StoreKey(tenant: Uuid, id: Uuid)

  type Cache = map<StoreKey, Json>

  /** The tenant-scoped view a guard is built from. */
  function TenantView(data: Cache, tenant: Uuid): Local
  {
    map id | id in (set k | k in data && k.tenant == tenant :: k.id) :: data[StoreKey(tenant, id)]
  }

  /** The replica's shared map of one entity type. */
  class StoreInner {
    var data: Cache
    const entityType: string
    const pool: Database?

    constructor (entityType: string, pool: Database?)
      ensures data == map[] && this.entityType == entityType && this.pool == pool
    {
      this.entityType, this.pool, data := entityType, pool, map[];
    }
  }

  /** The shared map with one tenant's entries written over it. */
  function Overlay(data: Cache, tenant: Uuid, entries: Local): Cache
  {
    data + map k | k in (set id | id in entries :: StoreKey(tenant, id)) :: entries[k.id]
  }

  /** The shared map without some of one tenant's ids. */
  function Evict(data: Cache, tenant: Uuid, ids: set<Uuid>): Cache
  {
    map k | k in data && !(k.tenant == tenant && k.id in ids) :: data[k]
  }

  lemma OverlayAt(data: Cache, tenant: Uuid, entries: Local, k: StoreKey)
    ensures At(Overlay(data, tenant, entries), k)
         == if k.tenant == tenant && k.id in entries then Some(entries[k.id]) else At(data, k)
  {
  }

  method InsertAll(data: Cache, tenant: Uuid, entries: Local) returns (after: Cache)
    ensures after == Overlay(data, tenant, entries)
  {
    after := data;
    var todo := entries.Keys;
    assert entries - todo == map[];
    while todo != {}
      invariant todo <= entries.Keys
      invariant after == Overlay(data, tenant, entries - todo)
      decreases todo
    {
      var id :| id in todo;
      OverlayStep(data, tenant, entries, todo, id);
      after := after[StoreKey(tenant, id) := entries[id]];
      todo := todo - {id};
    }
    assert entries - todo == entries;
  }

  lemma OverlayStep(data: Cache, tenant: Uuid, entries: Local, todo: set<Uuid>, id: Uuid)
    requires id in entries
    ensures Overlay(data, tenant, entries - todo)[StoreKey(tenant, id) := entries[id]]
         == Overlay(data, tenant, entries - (todo - {id}))
  {
    var one := Overlay(data, tenant, entries - todo)[StoreKey(tenant, id) := entries[id]];
    forall k ensures At(one, k) == At(Overlay(data, tenant, entries - (todo - {id})), k) {
      OverlayAt(data, tenant, entries - todo, k);
      OverlayAt(data, tenant, entries - (todo - {id}), k);
    }
    SameMap(one, Overlay(data, tenant, entries - (todo - {id})));
  }

  method RemoveAll(data: Cache, tenant: Uuid, ids: set<Uuid>) returns (after: Cache)
    ensures after == Evict(data, tenant, ids)
  {
    after := data;
    var todo := ids;
    ghost var done: set<Uuid> := {};
    while todo != {}
      invariant todo <= ids && done == ids - todo
      invariant after == Evict(data, tenant, done)
      decreases todo
    {
      var id :| id in todo;
      after := after - {StoreKey(tenant, id)};
      done := done + {id};
      todo := todo - {id};
    }
    assert done == ids;
  }

  /** What `write_back` leaves: the whole working map published, removed ids evicted. */
  function Back(data: Cache, tenant: Uuid, working: Local, removed: set<Uuid>): Cache
  {
    Evict(Overlay(data, tenant, working), tenant, removed)
  }

  /** What the rollback leaves: snapshot values for removed ids, then for changed known ids. */
  function Reverted(data: Cache, tenant: Uuid, original: Local, dirty: set<Uuid>, removed: set<Uuid>): Cache
  {
    Overlay(Overlay(data, tenant, map id | id in removed && id in original :: original[id]),
            tenant, map id | id in original && id in dirty :: original[id])
  }

  lemma ViewAt(data: Cache, tenant: Uuid, id: Uuid)
    ensures At(TenantView(data, tenant), id) == At(data, StoreKey(tenant, id))
  {
  }

  /** What the guard's tenant sees after a write-back and a rollback of everything. */
  function AfterRollback(data: Cache, tenant: Uuid, entityType: string, working: Local): Local
  {
    var original := TenantView(data, tenant);
    var d := Diff(tenant, entityType, original, working);
    TenantView(Reverted(Back(data, tenant, working, d.removed), tenant, original, d.values.Keys, d.removed), tenant)
  }

  /** Exactly when the rollback keeps its promise. If the shared map shows the guard's snapshot,
      then after write-back and rollback it shows the snapshot again if and only if the guard
      inserted no new id: an inserted id stays behind in memory. */
  lemma RollbackExact(data: Cache, tenant: Uuid, entityType: string, working: Local)
    ensures (AfterRollback(data, tenant, entityType, working) == TenantView(data, tenant))
              <==> working.Keys <= TenantView(data, tenant).Keys
  {
    var original, end := TenantView(data, tenant), AfterRollback(data, tenant, entityType, working);
    forall id ensures At(end, id) == if id in working && id !in original then Some(working[id]) else At(original, id) {
      EndAt(data, tenant, entityType, working, id);
    }
    MapsAgree(original, working, end);
  }

  lemma MapsAgree(original: Local, working: Local, end: Local)
    requires forall id :: At(end, id) == if id in working && id !in original then Some(working[id]) else At(original, id)
    ensures end == original <==> working.Keys <= original.Keys
  {
    if working.Keys <= original.Keys {
      SameMap(end, original);
    } else {
      var id :| id in working.Keys && id !in original.Keys;
      assert At(end, id) == Some(working[id]);
    }
  }

  lemma EndAt(data: Cache, tenant: Uuid, entityType: string, working: Local, id: Uuid)
    ensures var original := TenantView(data, tenant);
            At(AfterRollback(data, tenant, entityType, working), id) ==
              (if id in working && id !in original then Some(working[id]) else At(original, id))
  {
    var original := TenantView(data, tenant);
    var d := Diff(tenant, entityType, original, working);
    var k := StoreKey(tenant, id);
    var back := Back(data, tenant, working, d.removed);
    var first := map id | id in d.removed && id in original :: original[id];
    var second := map id | id in original && id in d.values.Keys :: original[id];
    ViewAt(data, tenant, id);
    ViewAt(Reverted(back, tenant, original, d.values.Keys, d.removed), tenant, id);
    OverlayAt(data, tenant, working, k);
    OverlayAt(back, tenant, first, k);
    OverlayAt(Overlay(back, tenant, first), tenant, second, k);
  }

  /** A refused guard's whole life in memory: write-back and rollback of `persist`, then the
      write-back of its drop, each write-back skipped if the lock was busy. */
  function AfterRefusal(data: Cache, tenant: Uuid, entityType: string, working: Local, busy: bool, busyDrop: bool): Cache
  {
    var original := TenantView(data, tenant);
    var d := Diff(tenant, entityType, original, working);
    var back := if busy then data else Back(data, tenant, working, d.removed);
    var rolled := Reverted(back, tenant, original, d.values.Keys, d.removed);
    if busyDrop then rolled else Back(rolled, tenant, working, d.removed)
  }

  lemma BackAt(data: Cache, tenant: Uuid, working: Local, removed: set<Uuid>, id: Uuid)
    requires working.Keys !! removed
    ensures At(TenantView(Back(data, tenant, working, removed), tenant), id)
         == if id in working then Some(working[id]) else if id in removed then None else At(data, StoreKey(tenant, id))
  {
    ViewAt(Back(data, tenant, working, removed), tenant, id);
    OverlayAt(data, tenant, working, StoreKey(tenant, id));
  }

  lemma RolledAt(data: Cache, tenant: Uuid, entityType: string, working: Local, busy: bool, id: Uuid)
    ensures var original := TenantView(data, tenant);
            At(AfterRefusal(data, tenant, entityType, working, busy, true), StoreKey(tenant, id)) ==
              if !busy && id in working && id !in original then Some(working[id]) else At(original, id)
  {
    var original := TenantView(data, tenant);
    var d := Diff(tenant, entityType, original, working);
    var end := AfterRefusal(data, tenant, entityType, working, busy, true);
    ViewAt(data, tenant, id);
    ViewAt(end, tenant, id);
    if busy {
      var k := StoreKey(tenant, id);
      var first := map id | id in d.removed && id in original :: original[id];
      var second := map id | id in original && id in d.values.Keys :: original[id];
      OverlayAt(data, tenant, first, k);
      OverlayAt(Overlay(data, tenant, first), tenant, second, k);
    } else {
      EndAt(data, tenant, entityType, working, id);
    }
  }

  lemma RefusedAt(data: Cache, tenant: Uuid, entityType: string, working: Local, busy: bool, busyDrop: bool, id: Uuid)
    ensures var original := TenantView(data, tenant);
            At(TenantView(AfterRefusal(data, tenant, entityType, working, busy, busyDrop), tenant), id) ==
              if !busyDrop then At(working, id)
              else if !busy && id in working && id !in original then Some(working[id]) else At(original, id)
  {
    var original := TenantView(data, tenant);
    var d := Diff(tenant, entityType, original, working);
    var rolled := AfterRefusal(data, tenant, entityType, working, busy, true);
    RolledAt(data, tenant, entityType, working, busy, id);
    ViewAt(rolled, tenant, id);
    if !busyDrop { BackAt(rolled, tenant, working, d.removed, id); }
  }

  /** The rollback's promise over the guard's whole life. A guard whose changes were refused leaves
      its snapshot in memory if and only if the lock was busy when it was dropped, and it had
      inserted nothing or the lock was busy during `persist` too. Dropped with the lock free, it
      always leaves its refused working map. */
  lemma RefusedGuardExact(data: Cache, tenant: Uuid, entityType: string, working: Local, busy: bool, busyDrop: bool)
    requires TenantView(data, tenant) != working
    ensures var original := TenantView(data, tenant);
            var end := TenantView(AfterRefusal(data, tenant, entityType, working, busy, busyDrop), tenant);
            && (end == original <==> busyDrop && (busy || working.Keys <= original.Keys))
            && (!busyDrop ==> end == working)
  {
    var original := TenantView(data, tenant);
    var end := TenantView(AfterRefusal(data, tenant, entityType, working, busy, busyDrop), tenant);
    forall id
      ensures At(end, id) == if !busyDrop then At(working, id)
                             else if !busy && id in working && id !in original then Some(working[id])
                             else At(original, id)
    {
      RefusedAt(data, tenant, entityType, working, busy, busyDrop, id);
    }
    RefusedMaps(original, working, end, busy, busyDrop);
  }

  lemma RefusedMaps(original: Local, working: Local, end: Local, busy: bool, busyDrop: bool)
    requires original != working
    requires forall id :: At(end, id) ==
               if !busyDrop then At(working, id)
               else if !busy && id in working && id !in original then Some(working[id])
               else At(original, id)
    ensures end == original <==> busyDrop && (busy || working.Keys <= original.Keys)
    ensures !busyDrop ==> end == working
  {
    if !busyDrop {
      SameMap(end, working);
    } else if busy {
      SameMap(end, original);
    } else {
      MapsAgree(original, working, end);
    }
  }

  /** Memory against the table after a drop with the lock free, whatever both held before: they
      agree on the rows the guard touched iff the drop's own attempt landed, or the table held
      everything the guard wanted already. */
  lemma DropAgreesIff(data: Cache, rows: Rows, tenant: Uuid, entityType: string, original: Local, working: Local, fault: Fault)
    ensures var ch := Diff(tenant, entityType, original, working);
            var view := TenantView(Back(data, tenant, working, ch.removed), tenant);
            (forall k | ch.Touches(k) :: At(view, k.id) == At(AfterAttempt(rows, ch, fault), k)) <==>
              (Lands(rows, ch, fault) || forall k | ch.Touches(k) :: At(rows, k) == ch.Written(k))
  {
    var ch := Diff(tenant, entityType, original, working);
    var view := TenantView(Back(data, tenant, working, ch.removed), tenant);
    DiffPatches(tenant, entityType, original, working);
    forall k | ch.Touches(k)
      ensures At(view, k.id) == ch.Written(k)
      ensures At(AfterAttempt(rows, ch, fault), k) == if Lands(rows, ch, fault) then ch.Written(k) else At(rows, k)
    {
      BackAt(data, tenant, working, ch.removed, k.id);
      PatchedAt(rows, ch, k);
    }
  }

  /** Neither touches another tenant's entries. */
  lemma CacheTenantsApart(data: Cache, tenant: Uuid, working: Local, original: Local, dirty: set<Uuid>, removed: set<Uuid>,
                          k: StoreKey)
    requires k.tenant != tenant
    ensures At(Back(data, tenant, working, removed), k) == At(data, k)
    ensures At(Reverted(data, tenant, original, dirty, removed), k) == At(data, k)
  {
    OverlayAt(data, tenant, working, k);
    var first := map id | id in removed && id in original :: original[id];
    OverlayAt(data, tenant, first, k);
    OverlayAt(Overlay(data, tenant, first), tenant, map id | id in original && id in dirty :: original[id], k);
  }

  class StoreWriteGuard {
    const inner: StoreInner
    const tenant: Uuid
    /** What the caller edits. */
    var working: Local
    var original: Local
    var dirty: set<Uuid>
    var removed: set<Uuid>

    /** `EntityStore::write`. */
    constructor (inner: StoreInner, tenant: Uuid)
      ensures this.inner == inner && this.tenant == tenant
      ensures working == original == TenantView(inner.data, tenant) && dirty == {} && removed == {}
    {
      this.inner, this.tenant := inner, tenant;
      working, original := TenantView(inner.data, tenant), TenantView(inner.data, tenant);
      dirty, removed := {}, {};
    }

    ghost function Pending(): Change
      reads this, inner
    {
      Diff(tenant, inner.entityType, original, working)
    }

    method ComputeDiff()
      modifies this`dirty, this`removed
      ensures dirty == Pending().values.Keys && removed == Pending().removed
    {
      dirty, removed := {}, {};
      var todo := working.Keys;
      while todo != {}
        invariant todo <= working.Keys && removed == {}
        invariant dirty == set id | id in working && id !in todo && At(original, id) != Some(working[id])
        decreases todo
      {
        var id :| id in todo;
        if !(id in original && original[id] == working[id]) { dirty := dirty + {id}; }
        todo := todo - {id};
      }
      todo := original.Keys;
      while todo != {}
        invariant todo <= original.Keys
        invariant dirty == Pending().values.Keys
        invariant removed == set id | id in original && id !in todo && id !in working
        decreases todo
      {
        var id :| id in todo;
        if id !in working { removed := removed + {id}; }
        todo := todo - {id};
      }
      assert removed == Pending().removed;
    }

    method CollectChanges() returns (values: Local)
      ensures values == map id | id in dirty && id in working :: working[id]
    {
      values := map[];
      var todo := dirty;
      while todo != {}
        invariant todo <= dirty
        invariant values == map id | id in dirty && id in working && id !in todo :: working[id]
        decreases todo
      {
        var id :| id in todo;
        if id in working { values := values[id := working[id]]; }
        todo := todo - {id};
      }
    }

    /** Publishes the WHOLE working map, changed or not, unless the lock is busy. */
    method WriteBack(busy: bool)
      modifies inner`data
      ensures inner.data == if busy then old(inner.data) else Back(old(inner.data), tenant, working, removed)
    {
      if busy { return; }
      inner.data := InsertAll(inner.data, tenant, working);
      inner.data := RemoveAll(inner.data, tenant, removed);
    }

    method RollbackLocalCache()
      modifies inner`data
      ensures inner.data == Reverted(old(inner.data), tenant, original, dirty, removed)
    {
      inner.data := InsertAll(inner.data, tenant, map id | id in removed && id in original :: original[id]);
      inner.data := InsertAll(inner.data, tenant, map id | id in original && id in dirty :: original[id]);
    }

    /** `persist`. Between the two attempts any number of other replicas may have acted. On an
        error the guard keeps its snapshot and its pending change. */
    method Persist(busy: bool, first: Fault, mid: seq<Try>, second: Fault) returns (ok: bool)
      modifies this, inner`data, inner.pool
      ensures working == old(working)
      ensures old(original) == old(working) ==>
        && ok && inner.data == old(inner.data) && original == old(original)
        && (inner.pool != null ==> inner.pool.rows == old(inner.pool.rows))
      ensures old(original) != old(working) && inner.pool != null ==>
        && (ok, inner.pool.rows) == Retried(old(inner.pool.rows), old(Pending()), first, mid, second)
        && Honest(ok, old(inner.pool.rows), inner.pool.rows, old(Pending()), first, second)
      ensures old(original) != old(working) && inner.pool == null ==> ok
      ensures ok ==> original == working && dirty == {} && removed == {}
      ensures !ok ==> original == old(original) && dirty == old(Pending()).values.Keys && removed == old(Pending()).removed
      ensures old(original) != old(working) ==>
        var ch := old(Pending());
        var back := if busy then old(inner.data) else Back(old(inner.data), tenant, working, ch.removed);
        inner.data == if ok then back else Reverted(back, tenant, old(original), ch.values.Keys, ch.removed)
    {
      DiffPatches(tenant, inner.entityType, original, working);
      ComputeDiff();
      if dirty == {} && removed == {} {
        return true;
      }
      var values := CollectChanges();
      var ask := Change(tenant, inner.entityType, original, values, removed);
      assert ask == old(Pending());
      WriteBack(busy);
      if inner.pool == null {
        original, dirty, removed := working, {}, {};
        return true;
      }
      ok := CommitWithRetry(ask, first, mid, second);
      if ok {
        original, dirty, removed := working, {}, {};
      } else {
        RollbackLocalCache();
      }
    }

    /** The attempt and its one retry, on a table others may have changed meanwhile. */
    method CommitWithRetry(ask: Change, first: Fault, mid: seq<Try>, second: Fault) returns (ok: bool)
      requires inner.pool != null && ask.Apart() && ask.removed <= ask.original.Keys
      modifies inner.pool
      ensures (ok, inner.pool.rows) == Retried(old(inner.pool.rows), ask, first, mid, second)
      ensures Honest(ok, old(inner.pool.rows), inner.pool.rows, ask, first, second)
    {
      RetriedIsHonest(old(inner.pool.rows), ask, first, mid, second);
      var r := inner.pool.PersistChanges(ask, first);
      if r == Committed { return true; }
      inner.pool.Meanwhile(mid);
      r := inner.pool.PersistChanges(ask, second);
      return r == Committed;
    }

    /** What dropping the guard does: nothing after a success, else write back once more and, where
        a runtime is left to do it, one more attempt at the table. */
    method DropFallback(busy: bool, runtime: bool, fault: Fault)
      modifies this`dirty, this`removed, inner`data, inner.pool
      ensures dirty == Pending().values.Keys && removed == Pending().removed
      ensures original == working ==>
        inner.data == old(inner.data) && (inner.pool != null ==> inner.pool.rows == old(inner.pool.rows))
      ensures original != working ==>
        && inner.data == (if busy then old(inner.data) else Back(old(inner.data), tenant, working, removed))
        && (inner.pool != null ==>
              inner.pool.rows == (if runtime then AfterAttempt(old(inner.pool.rows), Pending(), fault)
                                  else old(inner.pool.rows)))
    {
      DiffPatches(tenant, inner.entityType, original, working);
      ComputeDiff();
      if dirty == {} && removed == {} { return; }
      var values := CollectChanges();
      var ask := Change(tenant, inner.entityType, original, values, removed);
      assert ask == Pending();
      WriteBack(busy);
      if inner.pool != null && runtime {
        var _ := inner.pool.PersistChanges(ask, fault);
      }
    }
  }

  /** Two attempts with other replicas at work in between: is the caller told of success, and what
      does the table hold? */
  function Retried(rows: Rows, ch: Change, first: Fault, mid: seq<Try>, second: Fault): (bool, Rows)
  {
    var one := AfterAttempt(rows, ch, first);
    if Told(rows, ch, first) then (true, one)
    else
      var met := RunTries(Store(one, []), mid).rows;
      (Told(met, ch, second), AfterAttempt(met, ch, second))
  }

  /** What success and failure mean for the rows the change touches. Told of success, every one of
      them reads as the guard wrote it. Refused although the last attempt reached the table and its
      reply came back, one of them had moved from the snapshot, and the attempt wrote nothing. And
      where nothing had moved and the first attempt was healthy, there is success. */
  ghost predicate Honest(ok: bool, before: Rows, after: Rows, ch: Change, first: Fault, second: Fault)
  {
    && (ok ==> forall k | ch.Touches(k) :: At(after, k) == ch.Written(k))
    && (!ok && second.Healthy? ==> exists k :: ch.Touches(k) && At(after, k) != ch.Snapshot(k))
    && (first.Healthy? && (forall k | ch.Touches(k) :: At(before, k) == ch.Snapshot(k)) ==> ok)
  }

  lemma RetriedIsHonest(rows: Rows, ch: Change, first: Fault, mid: seq<Try>, second: Fault)
    requires ch.Apart() && ch.removed <= ch.original.Keys
    ensures var (ok, after) := Retried(rows, ch, first, mid, second);
            Honest(ok, rows, after, ch, first, second)
  {
    var one := AfterAttempt(rows, ch, first);
    var met := RunTries(Store(one, []), mid).rows;
    UnmovedExactly(rows, ch);
    UnmovedExactly(met, ch);
    forall k | ch.Touches(k) ensures Lands(rows, ch, first) ==> At(one, k) == ch.Written(k) { PatchedAt(rows, ch, k); }
    forall k | ch.Touches(k) ensures Lands(met, ch, second) ==> At(AfterAttempt(met, ch, second), k) == ch.Written(k) {
      PatchedAt(met, ch, k);
    }
  }

  /** Told of success, the change is among those that landed, by one of this call's two attempts:
      the guard's own last word on its rows. */
  lemma SuccessLanded(s: Store, t: Try, mid: seq<Try>, second: Fault)
    requires Retried(s.rows, t.Ask(), t.fault, mid, second).0
    ensures var one := Land(s, t);
            var end := if Told(s.rows, t.Ask(), t.fault) then one else Land(RunTries(one, mid), t.(fault := second));
            && end.landed != [] && end.landed[|end.landed| - 1] == t.Ask()
            && end.rows == Retried(s.rows, t.Ask(), t.fault, mid, second).1
  {
    var one := Land(s, t);
    SameRows(one, Store(one.rows, []), mid);
    assert t.(fault := second).Ask() == t.Ask();
  }

  /** What attempts do to the rows does not depend on the history. */
  lemma {:induction false} SameRows(s: Store, s': Store, tries: seq<Try>)
    requires s.rows == s'.rows
    ensures RunTries(s, tries).rows == RunTries(s', tries).rows
    decreases |tries|
  {
    if tries != [] { SameRows(Land(s, tries[0]), Land(s', tries[0]), tries[1..]); }
  }

  /** What memory shows once `persist` has succeeded: the working map for every id the guard knew,
      and whatever was there for the others. A busy lock leaves memory as it was. */
  lemma SuccessInMemory(data: Cache, tenant: Uuid, entityType: string, original: Local, working: Local, id: Uuid)
    ensures var ch := Diff(tenant, entityType, original, working);
            At(TenantView(Back(data, tenant, working, ch.removed), tenant), id)
              == if id in working then Some(working[id]) else if id in original then None else At(data, StoreKey(tenant, id))
  {
    BackAt(data, tenant, working, Diff(tenant, entityType, original, working).removed, id);
  }
}
