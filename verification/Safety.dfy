/** Safety of the claim protocol over whole runs. */
module Safety {
  import opened Prelude
  import opened Values
  import opened Journal
  import opened Protocol

  // ---- every action keeps the invariant ---------------------------------------

  /** `t` is `s` after something that concerns at most call `c`: history only grows, gates stay
      passed, succeeded rows stay put. */
  ghost predicate Follows(s: State, t: State, c: nat)
  {
    && s.log <= t.log
    && |s.calls| <= |t.calls|
    && (forall d | 0 <= d < |s.calls| :: t.calls[d].key == s.calls[d].key && t.calls[d].tool == s.calls[d].tool)
    && (forall d | 0 <= d < |s.calls| && d != c :: t.calls[d].pc == s.calls[d].pc)
    && (c < |s.calls| && !s.calls[c].pc.BeforeDispatch() ==>
          && !t.calls[c].pc.BeforeDispatch()
          && (!s.calls[c].pc.Running? ==> !t.calls[c].pc.Running?))
    && (forall k | k in s.gates :: k in t.gates && t.gates[k] == s.gates[k])
    && (forall k | k in s.world.rows && s.world.rows[k].status.Succeeded? ::
          k in t.world.rows && t.world.rows[k] == s.world.rows[k])
  }

  lemma PrefixKeeps(a: seq<Entry>, b: seq<Entry>, e: Entry)
    requires a <= b && e in a
    ensures e in b
  {
    var i :| 0 <= i < |a| && a[i] == e;
    assert b[i] == e;
  }

  lemma OthersKeepPc(s: State, t: State, c: nat, d: nat)
    requires Inv(s) && Follows(s, t, c) && d < |s.calls| && d != c
    ensures PcOk(t, d)
  {
    assert PcOk(s, d);
    var call := s.calls[d];
    if call.pc.Running? || call.pc.Completing? {
      PrefixKeeps(s.log, t.log, Entry(call.key, d, Dispatched));
    }
    if call.pc.Completing? && call.pc.status.Succeeded? {
      PrefixKeeps(s.log, t.log, Entry(call.key, d, Finished(Value(call.pc.result))));
    }
  }

  lemma OldEntryKept(s: State, t: State, c: nat, e: Entry)
    requires Inv(s) && Follows(s, t, c) && e in s.log
    ensures EntryOk(t, e)
  {
    assert EntryOk(s, e);
    if e.note.Finished? {
      PrefixKeeps(s.log, t.log, Entry(e.key, e.call, Dispatched));
    }
  }

  lemma OldSuccessKept(s: State, t: State, c: nat, k: JournalKey)
    requires Inv(s) && Follows(s, t, c) && k in s.world.rows && s.world.rows[k].status.Succeeded?
    ensures k in t.gates && t.gates[k] < |t.calls| && Produced(t, t.gates[k], t.world.rows[k].result)
  {
    var d := s.gates[k];
    assert Produced(s, d, s.world.rows[k].result);
    PrefixKeeps(s.log, t.log, Entry(s.calls[d].key, d, Finished(Value(s.world.rows[k].result))));
  }

  /** What is left to show of a step once `Follows` holds. */
  ghost predicate NewPartsOk(s: State, t: State, c: nat)
  {
    && RowsOk(t) && TokensOk(t) && GatesOk(t) && OnceOk(t.log)
    && (c < |t.calls| ==> PcOk(t, c))
    && (|t.calls| == |s.calls| || (|t.calls| == |s.calls| + 1 && c == |s.calls|))
    && (forall i | |s.log| <= i < |t.log| :: EntryOk(t, t.log[i]))
    && (forall k | k in t.world.rows && t.world.rows[k].status.Succeeded? ::
          || (k in s.world.rows && s.world.rows[k].status.Succeeded?)
          || (k in t.gates && t.gates[k] < |t.calls| && Produced(t, t.gates[k], t.world.rows[k].result)))
  }

  lemma Assemble(s: State, t: State, c: nat)
    requires Inv(s) && Follows(s, t, c) && NewPartsOk(s, t, c)
    ensures Inv(t)
  {
    forall d | 0 <= d < |t.calls| ensures PcOk(t, d) {
      if d != c { OthersKeepPc(s, t, c, d); }
    }
    forall e | e in t.log ensures EntryOk(t, e) {
      var i :| 0 <= i < |t.log| && t.log[i] == e;
      if i < |s.log| {
        assert s.log[i] == e;
        OldEntryKept(s, t, c, e);
      }
    }
    forall k | k in t.world.rows && t.world.rows[k].status.Succeeded?
      ensures k in t.gates && t.gates[k] < |t.calls| && Produced(t, t.gates[k], t.world.rows[k].result)
    {
      if k in s.world.rows && s.world.rows[k].status.Succeeded? { OldSuccessKept(s, t, c, k); }
    }
  }

  // ---- what one step may change --------------------------------------------------

  function RowAt(rows: Table, k: JournalKey): Option<Row> { if k in rows then Some(rows[k]) else None }

  predicate FreshClaim(r: Option<Row>, token: Token)
  {
    r.Some? && r.value.status.Reserved? && r.value.token == Some(token) && r.value.lease.Some? && r.value.lastBeat.Some?
  }

  /** The only ways a call can change its row, by program counter. */
  predicate RowMay(w: World, pc: Pc, r: Option<Row>, r': Option<Row>)
  {
    r' == r ||
    match pc
    case Reserving => r.None? && FreshClaim(r', w.nextToken)
    case Recovering =>
      && r.Some? && Expired(r.value.lease, w.now)
      && (if r.value.status.Reserved? then FreshClaim(r', w.nextToken)
          else !r.value.status.Settled() && r'.Some? && r'.value.status.ReconcileRequired? && r'.value.token.None?)
    case Gating(token) =>
      && r.Some? && r.value.status.Reserved? && r.value.token == Some(token)
      && r' == Some(r.value.(status := Dispatching, lastBeat := Some(w.now)))
    case Completing(token, status, result, _, _) =>
      && r.Some? && r.value.token == Some(token)
      && r'.Some? && r'.value.status == status && r'.value.result == result && r'.value.token.None?
    case _ => false
  }

  /** What a settled row tells every later caller. */
  function Replayed(env: Env, row: Row): Outcome
  {
    if row.status.Succeeded? then Ok(row.result)
    else if row.status.Failed? then Err(Dispatch(Said(env.recorded(row.result))))
    else Err(Conflict(Ambiguous))
  }

  /** Where a call may go, given how its row came out. */
  ghost predicate PcMay(env: Env, w: World, call: Call, r: Option<Row>, r': Option<Row>, answer: Answer, pc': Pc)
  {
    match call.pc
    case Reserving =>
      (pc' == Loading && r.Some?) || pc' == Done(Err(Dispatch(ReserveFailed))) || pc' == Gating(w.nextToken)
    case Loading =>
      || pc' == Done(Err(Dispatch(LoadFailed)))
      || (r.None? && pc' == Done(Err(Dispatch(RowMissing))))
      || (r.Some? && !r.value.status.Settled() && pc' == Recovering)
      || (r.Some? && r.value.status.Settled() && pc' == Done(Replayed(env, r.value)))
    case Recovering =>
      pc' == Done(Err(Dispatch(RecoverFailed))) || pc' == Done(Err(Conflict(InProgress))) || pc' == Gating(w.nextToken)
    case Gating(token) =>
      || pc' == Done(Err(Dispatch(BeginFailed))) || pc' == Done(Err(Conflict(CannotBegin)))
      || (r' != r && pc' == Cleared(token))
    case Cleared(token) => pc' == Running(token)
    case Running(token) => pc' == Settle(env, call, token, answer)
    case Completing(_, _, _, win, lose) => (pc' == Done(win) && r' != r) || pc' == Done(Err(lose))
    case _ => pc' == call.pc
  }

  lemma AdvanceMay(env: Env, w: World, call: Call, fault: Fault, answer: Answer)
    ensures var (w', call') := Advance(env, w, call, fault, answer);
            && call' == call.(pc := call'.pc) && w'.now == w.now
            && w.nextToken <= w'.nextToken
            && (call.pc.Reserving? || call.pc.Recovering? ==> w.nextToken < w'.nextToken)
            && (forall k | k != call.key :: RowAt(w'.rows, k) == RowAt(w.rows, k))
            && RowMay(w, call.pc, RowAt(w.rows, call.key), RowAt(w'.rows, call.key))
            && PcMay(env, w, call, RowAt(w.rows, call.key), RowAt(w'.rows, call.key), answer, call'.pc)
            && (GateLands(env, w, call, fault) <==> call.pc.Gating? && RowAt(w'.rows, call.key) != RowAt(w.rows, call.key))
  {
  }

  /** A step of call `c` from `s` to `t`, by its parts. */
  ghost predicate Moves(env: Env, s: State, t: State, c: nat, answer: Answer)
  {
    && c < |s.calls| == |t.calls|
    && var call := s.calls[c];
       var r, r' := RowAt(s.world.rows, call.key), RowAt(t.world.rows, call.key);
       (&& t.calls == s.calls[c := call.(pc := t.calls[c].pc)]
        && s.world.nextToken <= t.world.nextToken
        && (call.pc.Reserving? || call.pc.Recovering? ==> s.world.nextToken < t.world.nextToken)
        && (forall k | k != call.key :: RowAt(t.world.rows, k) == RowAt(s.world.rows, k))
        && RowMay(s.world, call.pc, r, r')
        && PcMay(env, s.world, call, r, r', answer, t.calls[c].pc)
        && t.gates == (if call.pc.Gating? && r' != r then s.gates[call.key := c] else s.gates)
        && t.log == s.log + Entries(call.key, c, Notes(call.pc, t.calls[c].pc, answer)))
  }

  lemma StepMoves(env: Env, s: State, c: nat, fault: Fault, answer: Answer)
    requires c < |s.calls|
    ensures Moves(env, s, StepCall(env, s, c, fault, answer), c, answer)
  {
    AdvanceMay(env, s.world, s.calls[c], fault, answer);
  }

  lemma MoveFollows(env: Env, s: State, t: State, c: nat, answer: Answer)
    requires Moves(env, s, t, c, answer) && RowsOk(s) && GatesOk(s)
    ensures Follows(s, t, c)
  {
    var k := s.calls[c].key;
    forall k' | k' in s.world.rows && s.world.rows[k'].status.Succeeded?
      ensures k' in t.world.rows && t.world.rows[k'] == s.world.rows[k']
    {
      assert RowAt(t.world.rows, k') == RowAt(s.world.rows, k');
    }
  }

  lemma MoveRows(env: Env, s: State, t: State, c: nat, answer: Answer)
    requires Moves(env, s, t, c, answer) && RowsOk(s) && PcOk(s, c)
    ensures RowsOk(t)
  {
    forall k | k in t.world.rows
      ensures var row := t.world.rows[k];
              if row.status.Settled() then row.token == None
              else row.token.Some? && row.token.value < t.world.nextToken && row.lease.Some? && row.lastBeat.Some?
    {
      assert RowAt(t.world.rows, k) == Some(t.world.rows[k]);
    }
  }

  lemma MoveTokens(env: Env, s: State, t: State, c: nat, answer: Answer)
    requires Moves(env, s, t, c, answer) && TokensOk(s)
    ensures TokensOk(t)
  {
  }

  lemma MoveGates(env: Env, s: State, t: State, c: nat, answer: Answer)
    requires Moves(env, s, t, c, answer) && GatesOk(s) && PcOk(s, c)
    ensures GatesOk(t)
  {
    forall k ensures k in t.gates <==> k in t.world.rows && !t.world.rows[k].status.Reserved? {
      assert RowAt(s.world.rows, k).Some? <==> k in s.world.rows;
      assert RowAt(t.world.rows, k).Some? <==> k in t.world.rows;
    }
  }

  /** Nobody else has an earlier entry of the kind being added. */
  lemma MoveOnce(env: Env, s: State, t: State, c: nat, answer: Answer)
    requires Moves(env, s, t, c, answer) && LogOk(s) && OnceOk(s.log) && PcOk(s, c)
    ensures OnceOk(t.log)
  {
    forall i | 0 <= i < |s.log| && s.log[i].key == s.calls[c].key
      ensures !(s.log[i].note.Dispatched? && s.calls[c].pc.Cleared?)
      ensures !(s.log[i].note.Finished? && s.calls[c].pc.Running?)
    {
      assert EntryOk(s, s.log[i]);
    }
  }

  lemma MovePc(env: Env, s: State, t: State, c: nat, answer: Answer)
    requires Moves(env, s, t, c, answer) && PcOk(s, c) && GatesOk(s)
    ensures PcOk(t, c)
  {
    var call := s.calls[c];
    if call.pc.Cleared? || call.pc.Running? {
      var e := Entry(call.key, c, Notes(call.pc, t.calls[c].pc, answer)[0]);
      assert t.log[|s.log|] == e;
    }
    if call.pc.Running? { PrefixKeeps(s.log, t.log, Entry(call.key, c, Dispatched)); }
  }

  lemma MoveEntry(env: Env, s: State, t: State, c: nat, answer: Answer)
    requires Moves(env, s, t, c, answer) && PcOk(s, c) && SuccessOk(s) && |s.log| < |t.log|
    ensures EntryOk(t, t.log[|s.log|])
  {
    var call := s.calls[c];
    assert t.log[|s.log|] == Entry(call.key, c, Notes(call.pc, t.calls[c].pc, answer)[0]);
    if call.pc.Running? { PrefixKeeps(s.log, t.log, Entry(call.key, c, Dispatched)); }
  }

  lemma MoveSuccess(env: Env, s: State, t: State, c: nat, answer: Answer, k: JournalKey)
    requires Moves(env, s, t, c, answer) && PcOk(s, c)
    requires k in t.world.rows && t.world.rows[k].status.Succeeded?
    ensures || (k in s.world.rows && s.world.rows[k].status.Succeeded?)
            || (k in t.gates && t.gates[k] < |t.calls| && Produced(t, t.gates[k], t.world.rows[k].result))
  {
    assert RowAt(t.world.rows, k) == Some(t.world.rows[k]);
    var call := s.calls[c];
    if k != call.key {
      assert RowAt(t.world.rows, k) == RowAt(s.world.rows, k);
    } else if RowAt(s.world.rows, k) != RowAt(t.world.rows, k) {
      assert call.pc.Completing?;
      PrefixKeeps(s.log, t.log, Entry(k, c, Finished(Value(call.pc.result))));
    }
  }

  lemma StepKeepsInv(env: Env, s: State, c: nat, fault: Fault, answer: Answer)
    requires Inv(s) && c < |s.calls|
    ensures Inv(StepCall(env, s, c, fault, answer))
  {
    var t := StepCall(env, s, c, fault, answer);
    StepMoves(env, s, c, fault, answer);
    MovesKeepInv(env, s, t, c, answer);
  }

  lemma MovesKeepInv(env: Env, s: State, t: State, c: nat, answer: Answer)
    requires Moves(env, s, t, c, answer) && Inv(s)
    ensures Inv(t)
  {
    assert PcOk(s, c);
    MoveFollows(env, s, t, c, answer);
    assert NewPartsOk(s, t, c) by {
      MoveRows(env, s, t, c, answer);
      MoveTokens(env, s, t, c, answer);
      MoveGates(env, s, t, c, answer);
      MoveOnce(env, s, t, c, answer);
      MovePc(env, s, t, c, answer);
      if |s.log| < |t.log| { MoveEntry(env, s, t, c, answer); }
      forall k | k in t.world.rows && t.world.rows[k].status.Succeeded?
        ensures || (k in s.world.rows && s.world.rows[k].status.Succeeded?)
                || (k in t.gates && t.gates[k] < |t.calls| && Produced(t, t.gates[k], t.world.rows[k].result))
      {
        MoveSuccess(env, s, t, c, answer, k);
      }
    }
    Assemble(s, t, c);
  }

  lemma StartKeepsInv(env: Env, s: State, key: JournalKey, owner: string, tool: Tool, permitted: bool)
    requires Inv(s)
    ensures Inv(Apply(env, s, Start(key, owner, tool, permitted)))
  {
    Assemble(s, Apply(env, s, Start(key, owner, tool, permitted)), |s.calls|);
  }

  /** A heartbeat moves nothing but the lease of an unsettled row. */
  ghost predicate LeaseOnly(before: Table, after: Table)
  {
    && after.Keys == before.Keys
    && forall k | k in before ::
         || after[k] == before[k]
         || (&& !before[k].status.Settled()
             && after[k] == before[k].(lease := after[k].lease, lastBeat := after[k].lastBeat)
             && after[k].lastBeat.Some? && (before[k].lastBeat.Some? ==> after[k].lease.Some?))
  }

  lemma BeatIsLeaseOnly(b: Backend, rows: Table, k: JournalKey, token: Token, now: Time)
    ensures LeaseOnly(rows, BeatRow(b, rows, k, token, now).0)
  {
  }

  lemma LeaseOnlyKeepsInv(s: State, rows: Table)
    requires Inv(s) && LeaseOnly(s.world.rows, rows)
    ensures Inv(s.(world := s.world.(rows := rows)))
  {
    var t := s.(world := s.world.(rows := rows));
    assert GatesOk(t);
    assert RowsOk(t);
    assert TokensOk(t);
    Assemble(s, t, |s.calls|);
  }

  lemma BeatKeepsInv(env: Env, s: State, c: nat)
    requires Inv(s)
    ensures Inv(Apply(env, s, Beat(c)))
  {
    if c < |s.calls| && s.calls[c].pc.Held().Some? {
      var call := s.calls[c];
      BeatIsLeaseOnly(env.backend, s.world.rows, call.key, call.pc.token, s.world.now);
      LeaseOnlyKeepsInv(s, BeatRow(env.backend, s.world.rows, call.key, call.pc.token, s.world.now).0);
    }
  }

  lemma CrashKeepsInv(env: Env, s: State, c: nat)
    requires Inv(s)
    ensures Inv(Apply(env, s, Crash(c)))
  {
    if c < |s.calls| {
      CrashFollows(env, s, c);
      CrashParts(env, s, c);
      Assemble(s, Apply(env, s, Crash(c)), c);
    }
  }

  lemma CrashFollows(env: Env, s: State, c: nat)
    requires c < |s.calls|
    ensures Follows(s, Apply(env, s, Crash(c)), c)
  {
  }

  lemma CrashParts(env: Env, s: State, c: nat)
    requires Inv(s) && c < |s.calls|
    ensures NewPartsOk(s, Apply(env, s, Crash(c)), c)
  {
    var t := Apply(env, s, Crash(c));
    assert PcOk(s, c);
    assert GatesOk(t) && TokensOk(t);
  }

  lemma ClockKeepsInv(s: State, now: Time)
    requires Inv(s)
    ensures Inv(s.(world := s.world.(now := now)))
  {
    Assemble(s, s.(world := s.world.(now := now)), |s.calls|);
  }

  lemma ApplyKeepsInv(env: Env, s: State, a: Action)
    requires Inv(s)
    ensures Inv(Apply(env, s, a))
  {
    match a
    case SetClock(t) => ClockKeepsInv(s, t);
    case Start(key, owner, tool, permitted) => StartKeepsInv(env, s, key, owner, tool, permitted);
    case Beat(c) => BeatKeepsInv(env, s, c);
    case Crash(c) => CrashKeepsInv(env, s, c);
    case Step(c, fault, answer) => if c < |s.calls| { StepKeepsInv(env, s, c, fault, answer); }
  }

  lemma {:induction false} ExecKeepsInv(env: Env, s: State, acts: seq<Action>)
    requires Inv(s)
    ensures Inv(Exec(env, s, acts))
    decreases |acts|
  {
    if acts != [] {
      ApplyKeepsInv(env, s, acts[0]);
      ExecKeepsInv(env, Apply(env, s, acts[0]), acts[1..]);
    }
  }

  /** Every reachable state satisfies the invariant. */
  lemma RunInv(env: Env, acts: seq<Action>)
    ensures Inv(Run(env, acts))
  {
    assert Inv(INITIAL);
    ExecKeepsInv(env, INITIAL, acts);
  }

  // ---- the promises ---------------------------------------------------------------

  /** The mutation of one (tenant, key) is dispatched at most once in any run. */
  lemma DispatchedAtMostOnce(env: Env, acts: seq<Action>, i: nat, j: nat)
    requires var log := Run(env, acts).log;
             && i < |log| && j < |log| && log[i].note.Dispatched? && log[j].note.Dispatched?
             && log[i].key == log[j].key
    ensures i == j
  {
    RunInv(env, acts);
    var log := Run(env, acts).log;
    assert OnceOk(log);
  }

  /** A `reserved` row has never been dispatched, however often it was recovered. */
  lemma ReservedNeverDispatched(env: Env, acts: seq<Action>, k: JournalKey, i: nat)
    requires var s := Run(env, acts);
             && k in s.world.rows && s.world.rows[k].status.Reserved?
             && i < |s.log| && s.log[i].key == k
    ensures !Run(env, acts).log[i].note.Dispatched?
  {
    RunInv(env, acts);
    var s := Run(env, acts);
    assert EntryOk(s, s.log[i]);
  }

  /** Every `Ok` ever returned for a key, to the owner or to any replaying call, is one value:
      the validated output of the key's single dispatch. */
  lemma ReplaysAgree(env: Env, acts: seq<Action>, i: nat, j: nat)
    requires var log := Run(env, acts).log;
             && i < |log| && j < |log| && log[i].key == log[j].key
             && log[i].note.Returned? && log[i].note.out.Ok?
             && log[j].note.Returned? && log[j].note.out.Ok?
    ensures var s := Run(env, acts);
            var v := s.log[i].note.out.value;
            && s.log[j].note.out.value == v
            && exists c: nat :: c < |s.calls| && s.calls[c].key == s.log[i].key && HasRun(s, c) && Produced(s, c, v)
  {
    RunInv(env, acts);
    var s := Run(env, acts);
    assert EntryOk(s, s.log[i]) && EntryOk(s, s.log[j]);
    var k := s.log[i].key;
    var c := s.gates[k];
    var v := s.log[i].note.out.value;
    assert Produced(s, c, v);
    assert EntryOk(s, Entry(k, c, Finished(Value(v))));
    assert s.calls[c].key == k && HasRun(s, c);
  }

  lemma MoveKeepsRank(env: Env, s: State, t: State, c: nat, answer: Answer, k: JournalKey)
    requires Moves(env, s, t, c, answer) && RowsOk(s) && PcOk(s, c) && k in s.world.rows
    ensures k in t.world.rows
    ensures s.world.rows[k].status.Rank() <= t.world.rows[k].status.Rank()
    ensures s.world.rows[k].status.Settled() ==> t.world.rows[k] == s.world.rows[k]
  {
    assert RowAt(s.world.rows, k) == Some(s.world.rows[k]);
    assert RowAt(t.world.rows, k).Some?;
    if k != s.calls[c].key { assert RowAt(t.world.rows, k) == RowAt(s.world.rows, k); }
  }

  lemma BeatKeepsRank(env: Env, s: State, c: nat, k: JournalKey)
    requires k in s.world.rows
    ensures var t := Apply(env, s, Beat(c));
            && k in t.world.rows && t.world.rows[k].status == s.world.rows[k].status
            && (s.world.rows[k].status.Settled() ==> t.world.rows[k] == s.world.rows[k])
  {
    if c < |s.calls| && s.calls[c].pc.Held().Some? {
      BeatIsLeaseOnly(env.backend, s.world.rows, s.calls[c].key, s.calls[c].pc.token, s.world.now);
    }
  }

  /** Nothing changes a settled row, and no row loses rank or disappears. */
  lemma ApplyKeepsRank(env: Env, s: State, a: Action, k: JournalKey)
    requires Inv(s) && k in s.world.rows
    ensures var t := Apply(env, s, a);
            && k in t.world.rows
            && s.world.rows[k].status.Rank() <= t.world.rows[k].status.Rank()
            && (s.world.rows[k].status.Settled() ==> t.world.rows[k] == s.world.rows[k])
  {
    match a
    case Step(c, fault, answer) =>
      if c < |s.calls| {
        assert PcOk(s, c);
        StepMoves(env, s, c, fault, answer);
        MoveKeepsRank(env, s, StepCall(env, s, c, fault, answer), c, answer, k);
      }
    case Beat(c) => BeatKeepsRank(env, s, c, k);
    case SetClock(_) =>
    case Start(_, _, _, _) =>
    case Crash(_) =>
  }

  lemma {:induction false} ExecKeepsRank(env: Env, s: State, more: seq<Action>, k: JournalKey)
    requires Inv(s) && k in s.world.rows
    ensures var t := Exec(env, s, more);
            && k in t.world.rows
            && s.world.rows[k].status.Rank() <= t.world.rows[k].status.Rank()
            && (s.world.rows[k].status.Settled() ==> t.world.rows[k] == s.world.rows[k])
    decreases |more|
  {
    if more != [] {
      ApplyKeepsRank(env, s, more[0], k);
      ApplyKeepsInv(env, s, more[0]);
      ExecKeepsRank(env, Apply(env, s, more[0]), more[1..], k);
    }
  }

  /** From any point of any run on: a row never loses rank, and a settled row never changes. */
  lemma SettledForever(env: Env, acts: seq<Action>, more: seq<Action>, k: JournalKey)
    requires k in Run(env, acts).world.rows
    ensures var s := Run(env, acts);
            var t := Exec(env, s, more);
            && k in t.world.rows
            && s.world.rows[k].status.Rank() <= t.world.rows[k].status.Rank()
            && (s.world.rows[k].status.Settled() ==> t.world.rows[k] == s.world.rows[k])
  {
    RunInv(env, acts);
    ExecKeepsRank(env, Run(env, acts), more, k);
  }

  // ---- fencing ----------------------------------------------------------------------

  /** Whoever changes an existing row holds its current token, or reclaims it expired. */
  lemma OnlyHolderWrites(env: Env, acts: seq<Action>, a: Action, k: JournalKey)
    requires var s := Run(env, acts);
             k in s.world.rows && RowAt(Apply(env, s, a).world.rows, k) != RowAt(s.world.rows, k)
    ensures var s := Run(env, acts);
            var row := s.world.rows[k];
            && (a.Step? || a.Beat?) && a.c < |s.calls| && s.calls[a.c].key == k
            && (|| (row.token.Some? && s.calls[a.c].pc.Held() == row.token)
                || (s.calls[a.c].pc.Recovering? && !row.status.Settled() && Expired(row.lease, s.world.now)))
  {
    var s := Run(env, acts);
    RunInv(env, acts);
    if a.Step? && a.c < |s.calls| {
      StepMoves(env, s, a.c, a.fault, a.answer);
    }
  }

  /** A token that is not a row's current token never becomes it again. */
  lemma ApplyKeepsFence(env: Env, s: State, a: Action, k: JournalKey, token: Token)
    requires Inv(s) && k in s.world.rows && token < s.world.nextToken && s.world.rows[k].token != Some(token)
    ensures var t := Apply(env, s, a);
            k in t.world.rows && token < t.world.nextToken && t.world.rows[k].token != Some(token)
  {
    ApplyKeepsRank(env, s, a, k);
    if a.Step? && a.c < |s.calls| {
      StepMoves(env, s, a.c, a.fault, a.answer);
      assert RowAt(s.world.rows, k) == Some(s.world.rows[k]);
      assert RowAt(Apply(env, s, a).world.rows, k).Some?;
    }
  }

  lemma {:induction false} ExecKeepsFence(env: Env, s: State, more: seq<Action>, k: JournalKey, token: Token)
    requires Inv(s) && k in s.world.rows && token < s.world.nextToken && s.world.rows[k].token != Some(token)
    ensures var t := Exec(env, s, more);
            k in t.world.rows && t.world.rows[k].token != Some(token)
    decreases |more|
  {
    if more != [] {
      ApplyKeepsFence(env, s, more[0], k, token);
      ApplyKeepsInv(env, s, more[0]);
      ExecKeepsFence(env, Apply(env, s, more[0]), more[1..], k, token);
    }
  }

  /** Once a row has passed to another token (or settled), every operation of an earlier holder
      is refused and leaves the whole table as it is, at every later point of the run and
      whatever its clock says. */
  lemma FencedForever(
      env: Env, acts: seq<Action>, more: seq<Action>, k: JournalKey, token: Token,
      now: Time, status: Status, result: Json)
    requires var s := Run(env, acts);
             k in s.world.rows && token < s.world.nextToken && s.world.rows[k].token != Some(token)
    ensures var rows := Exec(env, Run(env, acts), more).world.rows;
            && BeginRow(env.backend, rows, k, token, now) == (rows, false)
            && BeatRow(env.backend, rows, k, token, now) == (rows, false)
            && CompleteRow(rows, k, token, status, result) == (rows, false)
  {
    RunInv(env, acts);
    ExecKeepsFence(env, Run(env, acts), more, k, token);
  }

  /** A successful recover takes the row away from every token drawn before it: from then on
      `FencedForever` applies to all of them. */
  lemma RecoverFencesEarlier(s: State, k: JournalKey, owner: string, secs: int, now: Time, note: Json, earlier: Token)
    requires Inv(s) && earlier < s.world.nextToken
    requires RecoverRow(s.world.rows, k, owner, secs, now, s.world.nextToken, note).1.Some?
    ensures RecoverRow(s.world.rows, k, owner, secs, now, s.world.nextToken, note).0[k].token != Some(earlier)
  {
  }

  // ---- crashes and heartbeats happen --------------------------------------------------

  /** A crashed call never moves again, and its key's row stays as it left it until somebody else
      acts on it. */
  lemma {:induction false} CrashedStays(env: Env, s: State, c: nat, more: seq<Action>)
    requires c < |s.calls| && s.calls[c].pc.Crashed?
    ensures var t := Exec(env, s, more); c < |t.calls| && t.calls[c] == s.calls[c]
    decreases |more|
  {
    if more != [] {
      var t := Apply(env, s, more[0]);
      if more[0].Step? && more[0].c == c { StepMoves(env, s, c, more[0].fault, more[0].answer); }
      assert c < |t.calls| && t.calls[c] == s.calls[c];
      CrashedStays(env, t, c, more[1..]);
    }
  }

  /** A crash stops an active call where it is, and touches nothing else. */
  lemma CrashStops(env: Env, s: State, c: nat, more: seq<Action>)
    requires c < |s.calls| && s.calls[c].pc.Active()
    ensures Apply(env, s, Crash(c)).world == s.world && Apply(env, s, Crash(c)).log == s.log
    ensures var t := Exec(env, Apply(env, s, Crash(c)), more); c < |t.calls| && t.calls[c].pc.Crashed?
  {
    CrashedStays(env, Apply(env, s, Crash(c)), c, more);
  }

  /** A holder's heartbeat reaches the journal, and nothing but the table changes. */
  lemma HeartbeatReaches(env: Env, s: State, c: nat)
    requires c < |s.calls| && s.calls[c].pc.Held().Some?
    ensures var t := Apply(env, s, Beat(c));
            && t.world.rows == BeatRow(env.backend, s.world.rows, s.calls[c].key, s.calls[c].pc.Held().value, s.world.now).0
            && t.calls == s.calls && t.log == s.log && t.world.now == s.world.now
  {
  }
}
