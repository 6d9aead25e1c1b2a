/** What callers are told, and what rows record, in terms of what the command really answered. */
module Outcomes {
  import opened Prelude
  import opened Values
  import opened Journal
  import opened Protocol
  import opened Safety
  import opened Progress

  // ---- what an answer means ---------------------------------------------------------------

  /** The mutation may have taken effect although no answer says so. */
  predicate MayHaveHappened(a: Answer) { a.Elapsed? || a == Raised(Timeout) }

  ghost predicate Valid(a: Answer, tool: Tool) { a.Value? && Conforms(a.value, tool.schema) }

  /** What running the command under the real timeout and checking its output gives. */
  ghost function Judged(tool: Tool, answer: Answer): Outcome
  {
    match answer
    case Elapsed => Err(Timeout)
    case Raised(e) => Err(e)
    case Value(v) => if Conforms(v, tool.schema) then Ok(v) else Err(OutputValidation(SchemaMismatch))
  }

  /** A row that tells the truth about an answer: success exactly for a conforming value, which it
      holds; unknown exactly when the mutation may have happened unseen; failure otherwise, and
      then it holds the error the caller gets. */
  ghost predicate Tells(env: Env, tool: Tool, a: Answer, status: Status, result: Json)
  {
    && (status.Succeeded? <==> Valid(a, tool))
    && (status.UnknownOutcome? <==> MayHaveHappened(a))
    && (status.Failed? <==> !Valid(a, tool) && !MayHaveHappened(a))
    && result == if Judged(tool, a).Ok? then a.value else env.record(Judged(tool, a).error)
  }

  /** The error when the terminal write is not confirmed. */
  ghost function Unconfirmed(tool: Tool, a: Answer): ToolError
  {
    if Valid(a, tool) then Dispatch(CompleteFailed) else Conflict(Unrecorded)
  }

  /** The protocol settles a claim truthfully. */
  lemma SettleTells(env: Env, call: Call, token: Token, a: Answer)
    ensures var p := Settle(env, call, token, a);
            && p.Completing? && p.token == token && p.win == Judged(call.tool, a) && p.lose == Unconfirmed(call.tool, a)
            && Tells(env, call.tool, a, p.status, p.result)
            && p.status.Settled() && !p.status.ReconcileRequired?
  {
  }

  lemma JudgedExact(tool: Tool, a: Answer)
    ensures Judged(tool, a).Ok? <==> Valid(a, tool)
    ensures Valid(a, tool) ==> Judged(tool, a) == Ok(a.value)
    ensures a.Elapsed? ==> Judged(tool, a) == Err(Timeout)
    ensures a.Raised? ==> Judged(tool, a) == Err(a.error)
    ensures a.Value? && !Valid(a, tool) ==> Judged(tool, a).Err? && Judged(tool, a).error.OutputValidation?
  {
  }

  // ---- a lone call ---------------------------------------------------------------------------

  /** A journal error ends the call at once and names the operation that failed; without one, none
      of these errors is given. */
  lemma JournalErrorsAreNamed(env: Env, w: World, call: Call, fault: Fault, answer: Answer)
    ensures var pc := Advance(env, w, call, fault, answer).1.pc;
            && (call.pc.Reserving? ==> (!fault.NoFault? <==> pc == Done(Err(Dispatch(ReserveFailed)))))
            && (call.pc.Recovering? ==> (!fault.NoFault? <==> pc == Done(Err(Dispatch(RecoverFailed)))))
            && (call.pc.Gating? ==> (!fault.NoFault? <==> pc == Done(Err(Dispatch(BeginFailed)))))
            && (call.pc.Loading? && !fault.NoFault? ==> pc == Done(Err(Dispatch(LoadFailed))))
            && (call.pc.Completing? && !fault.NoFault? ==> pc == Done(Err(call.pc.lose)))
  {
  }

  /** A call that finds its key settled changes nothing and gives the recorded outcome: the result
      of a success, the text of a failure, a conflict where the outcome is unknown. */
  lemma SettledReplays(env: Env, w: World, call: Call, ins: seq<Input>)
    requires Quiet(ins) && |ins| >= 2
    requires call.pc.Reserving? && call.key in w.rows && w.rows[call.key].status.Settled()
    ensures var (w', call') := Drive(env, w, call, ins);
            var row := w.rows[call.key];
            && w'.rows == w.rows
            && (row.status.Succeeded? ==> call'.pc == Done(Ok(row.result)))
            && (row.status.Failed? ==> call'.pc == Done(Err(Dispatch(Said(env.recorded(row.result))))))
            && (row.status.UnknownOutcome? || row.status.ReconcileRequired? ==> call'.pc == Done(Err(Conflict(Ambiguous))))
  {
    var (w1, c1) := Advance(env, w.(now := ins[0].now), call, ins[0].fault, ins[0].answer);
    assert c1 == call.(pc := Loading) && w1.rows == w.rows;
    var (w2, c2) := Advance(env, w1.(now := ins[1].now), c1, ins[1].fault, ins[1].answer);
    assert Drive(env, w, call, ins) == Drive(env, w1, c1, ins[1..]);
    assert ins[1..][1..] == ins[2..];
    assert Drive(env, w1, c1, ins[1..]) == Drive(env, w2, c2, ins[2..]);
    IdleDrive(env, w2, c2, ins[2..]);
  }

  /** A live claim, alone, ends in a row and an outcome that tell the truth about the answer. */
  lemma ClaimTells(env: Env, w: World, call: Call, ins: seq<Input>)
    requires Quiet(ins) && |ins| >= 4
    requires call.pc.Gating? && call.key in w.rows
    requires var row := w.rows[call.key];
             row.status.Reserved? && row.token == Some(call.pc.token) && GateLive(env.backend, row.lease, ins[0].now)
    ensures var (w', call') := Drive(env, w, call, ins);
            && call.key in w'.rows && call'.pc == Done(Judged(call.tool, ins[2].answer))
            && Tells(env, call.tool, ins[2].answer, w'.rows[call.key].status, w'.rows[call.key].result)
  {
    ClaimRunsOut(env, w, call, ins);
    SettleTells(env, call, call.pc.token, ins[2].answer);
  }

  /** The lease outlives the tool's own timeout by at least 299 and at most 300 seconds: the floor,
      less what the timeout loses to whole seconds. */
  lemma LeaseOutlivesTimeout(tool: Tool)
    ensures tool.timeoutMs * 1000 + 299_000_000 < LeaseSeconds(tool) * SECOND <= tool.timeoutMs * 1000 + 300_000_000
  {
  }

  /** Both ways to a claim give the same: a never-dispatched row, owned by the caller under the new
      token, whose gate is open on either backend until exactly the lease's end. */
  ghost predicate Claimed(row: Row, owner: string, token: Token, from: Time, secs: int)
  {
    && row.status.Reserved? && row.owner == Some(owner) && row.token == Some(token) && row.result == EMPTY_OBJECT
    && row.window == secs * 1_000_000 && row.lastBeat == Some(from)
    && forall t: Time ::
         && (GateLive(Postgres, row.lease, t) <==> t < from + secs * 1_000_000)
         && (GateLive(Memory, row.lease, t) <==> t <= from + secs * 1_000_000)
         && (Expired(row.lease, t) <==> from + secs * 1_000_000 < t)
  }

  lemma ReserveClaims(rows: Table, k: JournalKey, owner: string, secs: int, now: Time, drawn: Token)
    ensures var (after, said) := ReserveRow(rows, k, owner, secs, now, drawn);
            if k in rows then after == rows && said == AlreadyExists
            else
              && said == Fresh(drawn) && k in after && after == rows[k := after[k]]
              && Claimed(after[k], owner, drawn, now, secs) && after[k].attempt == 1
  {
  }

  /** Recovery takes a never-dispatched row exactly when its lease has run out (or it has none),
      counting the attempt; marks a possibly dispatched one exactly then; and otherwise does nothing. */
  lemma RecoverClaims(rows: Table, k: JournalKey, owner: string, secs: int, now: Time, drawn: Token, note: Json)
    ensures var (after, taken) := RecoverRow(rows, k, owner, secs, now, drawn, note);
            if k in rows && (rows[k].lease.Some? ==> rows[k].lease.value < now) && rows[k].status.Reserved? then
              && taken == Some(drawn) && k in after && after == rows[k := after[k]]
              && Claimed(after[k], owner, drawn, now, secs) && after[k].attempt == rows[k].attempt + 1
            else if k in rows && (rows[k].lease.Some? ==> rows[k].lease.value < now) && !rows[k].status.Settled() then
              && taken == None && k in after && after == rows[k := after[k]]
              && after[k].status.ReconcileRequired? && after[k].result == note && Unclaimed(after[k])
              && after[k].attempt == rows[k].attempt
            else taken == None && after == rows
  {
  }

  predicate Unclaimed(row: Row) { row.owner.None? && row.token.None? && row.lease.None? }

  /** Completion needs the current token and nothing else, writes what it is given and gives the
      claim up. */
  lemma CompleteReleases(rows: Table, k: JournalKey, token: Token, status: Status, result: Json)
    ensures var (after, ok) := CompleteRow(rows, k, token, status, result);
            && (ok <==> k in rows && rows[k].token == Some(token))
            && (!ok ==> after == rows)
            && (ok ==> && k in after && after == rows[k := after[k]] && after[k].status == status
                       && after[k].result == result && Unclaimed(after[k]) && after[k].attempt == rows[k].attempt)
  {
  }

  /** The gate needs a never-dispatched row, the current token and a lease that has not run out; a
      row without a lease passes on Postgres only. */
  lemma GateOpensIff(b: Backend, rows: Table, k: JournalKey, token: Token, now: Time)
    ensures var (after, began) := BeginRow(b, rows, k, token, now);
            && (began <==>
                  && k in rows && rows[k].status.Reserved? && rows[k].token == Some(token)
                  && match rows[k].lease
                     case None => b.Postgres?
                     case Some(end) => now < end || (now == end && b.Memory?))
            && (!began ==> after == rows)
            && (began ==> after == rows[k := rows[k].(status := Dispatching, lastBeat := Some(now))])
  {
  }

  /** A heartbeat is taken exactly from the current token of an unsettled row whose lease has not
      run out, and changes the lease and the heartbeat time alone. */
  lemma HeartbeatIff(b: Backend, rows: Table, k: JournalKey, token: Token, now: Time)
    ensures var (after, renewed) := BeatRow(b, rows, k, token, now);
            && (renewed <==>
                  && k in rows && rows[k].token == Some(token) && !rows[k].status.Settled()
                  && rows[k].lease.Some? && now <= rows[k].lease.value)
            && (!renewed ==> after == rows)
            && (renewed ==> k in after && after == rows[k := rows[k].(lease := after[k].lease, lastBeat := Some(now))])
  {
  }

  /** The first call ever for a key, alone and without journal errors, that passes the gate within
      300 seconds of its claim runs the command, returns what it answered and records it. */
  lemma FirstCallRuns(env: Env, w: World, call: Call, ins: seq<Input>)
    requires Quiet(ins) && |ins| >= 5
    requires call.pc.Reserving? && call.key !in w.rows
    requires ins[1].now < ins[0].now + 300_000_000
    ensures var (w', call') := Drive(env, w, call, ins);
            && call.key in w'.rows && call'.pc == Done(Judged(call.tool, ins[3].answer))
            && Tells(env, call.tool, ins[3].answer, w'.rows[call.key].status, w'.rows[call.key].result)
  {
    var (w1, c1) := Advance(env, w.(now := ins[0].now), call, ins[0].fault, ins[0].answer);
    ReserveClaims(w.rows, call.key, call.owner, LeaseSeconds(call.tool), ins[0].now, w.nextToken);
    assert c1 == call.(pc := Gating(w.nextToken));
    assert Drive(env, w, call, ins) == Drive(env, w1, c1, ins[1..]);
    ClaimTells(env, w1, c1, ins[1..]);
  }

  // ---- from every reachable state -----------------------------------------------------------------

  /** A fresh call added to a reachable state and driven alone. */
  ghost function AloneAfter(env: Env, s: State, k: JournalKey, owner: string, tool: Tool, ins: seq<Input>): State
  {
    Exec(env, s, [Start(k, owner, tool, true)] + Actions(|s.calls|, ins))
  }

  lemma AloneIsDrive(env: Env, s: State, k: JournalKey, owner: string, tool: Tool, ins: seq<Input>)
    ensures var t := AloneAfter(env, s, k, owner, tool, ins);
            var (w, call) := Drive(env, s.world, Call(k, owner, tool, Reserving), ins);
            |t.calls| == |s.calls| + 1 && t.calls[|s.calls|] == call && t.world.rows == w.rows
  {
    var start := Start(k, owner, tool, true);
    var s' := Apply(env, s, start);
    var more := [start] + Actions(|s.calls|, ins);
    assert more[1..] == Actions(|s.calls|, ins);
    assert Exec(env, s, more) == Exec(env, s', Actions(|s.calls|, ins));
    DriveIsRun(env, s', |s.calls|, ins);
  }

  /** First-call progress from every reachable state. */
  lemma FirstCallSucceeds(env: Env, s: State, k: JournalKey, owner: string, tool: Tool, ins: seq<Input>)
    requires k !in s.world.rows && Quiet(ins) && |ins| >= 5 && ins[1].now < ins[0].now + 300_000_000
    ensures var t := AloneAfter(env, s, k, owner, tool, ins);
            && |s.calls| < |t.calls| && t.calls[|s.calls|].pc == Done(Judged(tool, ins[3].answer))
            && k in t.world.rows
            && Tells(env, tool, ins[3].answer, t.world.rows[k].status, t.world.rows[k].result)
  {
    AloneIsDrive(env, s, k, owner, tool, ins);
    FirstCallRuns(env, s.world, Call(k, owner, tool, Reserving), ins);
  }

  // ---- over every run -------------------------------------------------------------------------------

  ghost predicate FinishedAs(s: State, c: nat, a: Answer)
    requires c < |s.calls|
  {
    Entry(s.calls[c].key, c, Finished(a)) in s.log
  }

  ghost predicate CallTrue(env: Env, s: State, c: nat)
    requires c < |s.calls|
  {
    var call := s.calls[c];
    && (call.pc.Done? ==> Entry(call.key, c, Returned(call.pc.out)) in s.log)
    && (call.pc.Loading? || call.pc.Recovering? ==> call.key in s.world.rows)
    && (call.pc.Completing? ==>
          exists a :: FinishedAs(s, c, a) && Tells(env, call.tool, a, call.pc.status, call.pc.result)
                   && call.pc.win == Judged(call.tool, a) && call.pc.lose == Unconfirmed(call.tool, a)
                   && !call.pc.status.ReconcileRequired?)
  }

  /** A row that records an outcome records the truth about its key's single dispatch. */
  ghost predicate RowTrue(env: Env, s: State, k: JournalKey)
    requires k in s.world.rows
  {
    var row := s.world.rows[k];
    row.status.Settled() && !row.status.ReconcileRequired? ==>
      && k in s.gates && s.gates[k] < |s.calls|
      && exists a :: FinishedAs(s, s.gates[k], a) && Tells(env, s.calls[s.gates[k]].tool, a, row.status, row.result)
  }

  /** Errors that promise that this call did not run the command. */
  predicate Harmless(out: Outcome)
  {
    || out == Err(NotPermitted) || out == Err(Dispatch(ReserveFailed)) || out == Err(Dispatch(LoadFailed))
    || out == Err(Dispatch(RecoverFailed)) || out == Err(Dispatch(BeginFailed))
    || out == Err(Conflict(InProgress)) || out == Err(Conflict(CannotBegin))
  }

  /** A call that did not run the command was refused, or tells what the settled row tells. */
  ghost predicate WithoutRunning(env: Env, s: State, k: JournalKey, out: Outcome)
  {
    || Harmless(out)
    || (k in s.world.rows && s.world.rows[k].status.Settled() && out == Replayed(env, s.world.rows[k]))
  }

  /** One that ran it tells what it answered, and the row says so too; or that this could not be
      confirmed. */
  ghost predicate AfterRunning(env: Env, s: State, k: JournalKey, tool: Tool, a: Answer, out: Outcome)
  {
    || out == Err(Unconfirmed(tool, a))
    || (&& out == Judged(tool, a) && k in s.world.rows && s.world.rows[k].status.Settled()
        && Tells(env, tool, a, s.world.rows[k].status, s.world.rows[k].result))
  }

  ghost predicate ReturnTrue(env: Env, s: State, e: Entry)
    requires e.note.Returned? && e.call < |s.calls|
  {
    var call := s.calls[e.call];
    || (!HasRun(s, e.call) && WithoutRunning(env, s, e.key, e.note.out))
    || (HasRun(s, e.call) && exists a :: FinishedAs(s, e.call, a) && AfterRunning(env, s, e.key, call.tool, a, e.note.out))
  }

  ghost predicate Truth(env: Env, s: State)
  {
    && Inv(s)
    && (forall c | 0 <= c < |s.calls| :: CallTrue(env, s, c))
    && (forall k | k in s.world.rows :: RowTrue(env, s, k))
    && (forall e | e in s.log && e.note.Returned? :: e.call < |s.calls| && s.calls[e.call].pc.Done? && ReturnTrue(env, s, e))
  }

  /** `t` continues `s` with news about at most call `c`, which was not done. */
  ghost predicate Continues(s: State, t: State, c: nat)
  {
    && Follows(s, t, c)
    && (forall i | |s.log| <= i < |t.log| :: t.log[i].call == c && (c < |s.calls| ==> !s.calls[c].pc.Done?))
    && (forall k | k in s.world.rows :: k in t.world.rows)
    && (forall k | k in s.world.rows && s.world.rows[k].status.Settled() :: t.world.rows[k] == s.world.rows[k])
  }

  lemma StillFinished(s: State, t: State, c: nat, d: nat, a: Answer)
    requires Continues(s, t, c) && d < |s.calls| && FinishedAs(s, d, a)
    ensures FinishedAs(t, d, a)
  {
    PrefixKeeps(s.log, t.log, Entry(s.calls[d].key, d, Finished(a)));
  }

  lemma OtherCallTrue(env: Env, s: State, t: State, c: nat, d: nat)
    requires Continues(s, t, c) && d < |s.calls| && d != c && CallTrue(env, s, d)
    ensures CallTrue(env, t, d)
  {
    var call := s.calls[d];
    if call.pc.Done? { PrefixKeeps(s.log, t.log, Entry(call.key, d, Returned(call.pc.out))); }
    if call.pc.Completing? {
      var a :| FinishedAs(s, d, a) && Tells(env, call.tool, a, call.pc.status, call.pc.result)
        && call.pc.win == Judged(call.tool, a) && call.pc.lose == Unconfirmed(call.tool, a);
      StillFinished(s, t, c, d, a);
    }
  }

  lemma SameRowTrue(env: Env, s: State, t: State, c: nat, k: JournalKey)
    requires Continues(s, t, c) && k in s.world.rows && RowTrue(env, s, k)
    requires s.world.rows[k].status.Settled()
    ensures RowTrue(env, t, k)
  {
    var row := s.world.rows[k];
    if !row.status.ReconcileRequired? {
      var a :| FinishedAs(s, s.gates[k], a) && Tells(env, s.calls[s.gates[k]].tool, a, row.status, row.result);
      StillFinished(s, t, c, s.gates[k], a);
    }
  }

  lemma StillUnrun(s: State, t: State, c: nat, d: nat)
    requires Continues(s, t, c) && d < |s.calls| && s.calls[d].pc.Done?
    ensures HasRun(t, d) <==> HasRun(s, d)
  {
    var e := Entry(s.calls[d].key, d, Dispatched);
    if HasRun(s, d) { PrefixKeeps(s.log, t.log, e); }
    if HasRun(t, d) {
      var i :| 0 <= i < |t.log| && t.log[i] == e;
      assert i < |s.log| && s.log[i] == e;
    }
  }

  lemma OldReturnTrue(env: Env, s: State, t: State, c: nat, e: Entry)
    requires Continues(s, t, c) && e.note.Returned? && e.call < |s.calls| && s.calls[e.call].pc.Done?
    requires ReturnTrue(env, s, e)
    ensures ReturnTrue(env, t, e)
  {
    StillUnrun(s, t, c, e.call);
    if HasRun(s, e.call) {
      var a :| FinishedAs(s, e.call, a) && AfterRunning(env, s, e.key, s.calls[e.call].tool, a, e.note.out);
      StillFinished(s, t, c, e.call, a);
      assert AfterRunning(env, t, e.key, t.calls[e.call].tool, a, e.note.out);
    }
  }

  /** What is left to show once `Continues` holds. */
  ghost predicate NewsTrue(env: Env, s: State, t: State, c: nat)
  {
    && (|t.calls| == |s.calls| || (|t.calls| == |s.calls| + 1 && c == |s.calls|))
    && (c < |t.calls| ==> CallTrue(env, t, c))
    && (c < |s.calls| && s.calls[c].pc.Done? ==> t.calls[c].pc.Done?)
    && (forall k | k in t.world.rows && !(k in s.world.rows && s.world.rows[k].status.Settled()) :: RowTrue(env, t, k))
    && (forall i | |s.log| <= i < |t.log| && t.log[i].note.Returned? ::
          t.log[i].call < |t.calls| && t.calls[t.log[i].call].pc.Done? && ReturnTrue(env, t, t.log[i]))
  }

  lemma AssembleTruth(env: Env, s: State, t: State, c: nat)
    requires Truth(env, s) && Inv(t) && Continues(s, t, c) && NewsTrue(env, s, t, c)
    ensures Truth(env, t)
  {
    forall d | 0 <= d < |t.calls| ensures CallTrue(env, t, d) {
      if d != c { OtherCallTrue(env, s, t, c, d); }
    }
    forall k | k in t.world.rows ensures RowTrue(env, t, k) {
      if k in s.world.rows && s.world.rows[k].status.Settled() { SameRowTrue(env, s, t, c, k); }
    }
    forall e | e in t.log && e.note.Returned?
      ensures e.call < |t.calls| && t.calls[e.call].pc.Done? && ReturnTrue(env, t, e)
    {
      var i :| 0 <= i < |t.log| && t.log[i] == e;
      if i < |s.log| {
        assert s.log[i] == e && e in s.log;
        OldReturnTrue(env, s, t, c, e);
      }
    }
  }

  // ---- a step of a call ------------------------------------------------------------------------------

  lemma MoveContinues(env: Env, s: State, t: State, c: nat, answer: Answer)
    requires Moves(env, s, t, c, answer) && Inv(s)
    ensures Continues(s, t, c)
  {
    assert PcOk(s, c);
    MoveFollows(env, s, t, c, answer);
    forall k | k in s.world.rows
      ensures k in t.world.rows && (s.world.rows[k].status.Settled() ==> t.world.rows[k] == s.world.rows[k])
    {
      assert RowAt(s.world.rows, k) == Some(s.world.rows[k]);
      assert RowAt(t.world.rows, k).Some?;
    }
  }

  lemma MoveCallTrue(env: Env, s: State, t: State, c: nat, answer: Answer)
    requires Moves(env, s, t, c, answer) && Continues(s, t, c) && CallTrue(env, s, c)
    ensures CallTrue(env, t, c)
  {
    var call, pc := s.calls[c], t.calls[c].pc;
    assert RowAt(s.world.rows, call.key).Some? <==> call.key in s.world.rows;
    if call.pc.Done? { PrefixKeeps(s.log, t.log, Entry(call.key, c, Returned(call.pc.out))); }
    if !call.pc.Done? && pc.Done? { assert t.log[|s.log|] == Entry(call.key, c, Returned(pc.out)); }
    if call.pc.Running? {
      SettleTells(env, call, call.pc.token, answer);
      assert t.log[|s.log|] == Entry(call.key, c, Finished(answer));
      assert FinishedAs(t, c, answer);
    }
  }

  lemma MoveRowTrue(env: Env, s: State, t: State, c: nat, answer: Answer, k: JournalKey)
    requires Moves(env, s, t, c, answer) && Continues(s, t, c) && Inv(s) && CallTrue(env, s, c)
    requires k in t.world.rows && !(k in s.world.rows && s.world.rows[k].status.Settled())
    ensures RowTrue(env, t, k)
  {
    assert PcOk(s, c);
    var call := s.calls[c];
    assert RowAt(t.world.rows, k) == Some(t.world.rows[k]);
    if k != call.key || RowAt(s.world.rows, k) == RowAt(t.world.rows, k) {
      assert RowAt(s.world.rows, k) == RowAt(t.world.rows, k);
      assert k in s.world.rows;
    } else if call.pc.Completing? {
      var a :| FinishedAs(s, c, a) && Tells(env, call.tool, a, call.pc.status, call.pc.result);
      StillFinished(s, t, c, c, a);
    }
  }

  lemma NotYetRun(s: State, c: nat, key: JournalKey)
    requires LogOk(s) && (c < |s.calls| ==> s.calls[c].pc.BeforeDispatch())
    ensures Entry(key, c, Dispatched) !in s.log
  {
    var e := Entry(key, c, Dispatched);
    assert e in s.log ==> EntryOk(s, e);
  }

  lemma MoveReturnTrue(env: Env, s: State, t: State, c: nat, answer: Answer)
    requires Moves(env, s, t, c, answer) && Continues(s, t, c) && Inv(s) && CallTrue(env, s, c)
    requires |s.log| < |t.log| && t.log[|s.log|].note.Returned?
    ensures t.calls[c].pc.Done? && ReturnTrue(env, t, t.log[|s.log|])
  {
    assert PcOk(s, c);
    var call := s.calls[c];
    var out := t.calls[c].pc.out;
    var e := Entry(call.key, c, Returned(out));
    assert t.log == s.log + [e];
    var d := Entry(call.key, c, Dispatched);
    assert RowAt(s.world.rows, call.key).Some? <==> call.key in s.world.rows;
    if call.pc.Completing? {
      PrefixKeeps(s.log, t.log, d);
      var a :| FinishedAs(s, c, a) && Tells(env, call.tool, a, call.pc.status, call.pc.result)
        && call.pc.win == Judged(call.tool, a) && call.pc.lose == Unconfirmed(call.tool, a);
      StillFinished(s, t, c, c, a);
      assert AfterRunning(env, t, e.key, call.tool, a, out);
    } else {
      NotYetRun(s, c, call.key);
      assert d in t.log <==> d in s.log;
      assert WithoutRunning(env, t, e.key, out);
    }
  }

  lemma StepKeepsTruth(env: Env, s: State, t: State, c: nat, answer: Answer)
    requires Moves(env, s, t, c, answer) && Truth(env, s)
    ensures Truth(env, t)
  {
    MovesKeepInv(env, s, t, c, answer);
    MoveContinues(env, s, t, c, answer);
    MoveCallTrue(env, s, t, c, answer);
    forall k | k in t.world.rows && !(k in s.world.rows && s.world.rows[k].status.Settled()) ensures RowTrue(env, t, k) {
      MoveRowTrue(env, s, t, c, answer, k);
    }
    if |s.log| < |t.log| && t.log[|s.log|].note.Returned? { MoveReturnTrue(env, s, t, c, answer); }
    AssembleTruth(env, s, t, c);
  }

  // ---- the other actions --------------------------------------------------------------------------------

  lemma QuietKeepsTruth(env: Env, s: State, w: World)
    requires Truth(env, s) && LeaseOnly(s.world.rows, w.rows) && Inv(s.(world := w))
    ensures Truth(env, s.(world := w))
  {
    var t := s.(world := w);
    forall k | k in t.world.rows && !s.world.rows[k].status.Settled() ensures RowTrue(env, t, k) {}
    AssembleTruth(env, s, t, |s.calls|);
  }

  lemma StartKeepsTruth(env: Env, s: State, key: JournalKey, owner: string, tool: Tool, permitted: bool)
    requires Truth(env, s)
    ensures Truth(env, Apply(env, s, Start(key, owner, tool, permitted)))
  {
    var c, t := |s.calls|, Apply(env, s, Start(key, owner, tool, permitted));
    StartKeepsInv(env, s, key, owner, tool, permitted);
    if !permitted {
      var e := Entry(key, c, Returned(Err(NotPermitted)));
      assert t.log[|s.log|] == e;
      NotYetRun(s, c, key);
      assert WithoutRunning(env, t, key, Err(NotPermitted));
      assert ReturnTrue(env, t, e);
    }
    UnsettledTrue(env, s, t);
    AssembleTruth(env, s, t, c);
  }

  lemma UnsettledTrue(env: Env, s: State, t: State)
    requires t.world.rows == s.world.rows
    ensures forall k | k in t.world.rows && !s.world.rows[k].status.Settled() :: RowTrue(env, t, k)
  {
  }

  lemma CrashKeepsTruth(env: Env, s: State, c: nat)
    requires Truth(env, s)
    ensures Truth(env, Apply(env, s, Crash(c)))
  {
    CrashKeepsInv(env, s, c);
    if c < |s.calls| && s.calls[c].pc.Active() {
      var t := Apply(env, s, Crash(c));
      CrashFollows(env, s, c);
      UnsettledTrue(env, s, t);
      AssembleTruth(env, s, t, c);
    }
  }

  lemma ApplyKeepsTruth(env: Env, s: State, a: Action)
    requires Truth(env, s)
    ensures Truth(env, Apply(env, s, a))
  {
    ApplyKeepsInv(env, s, a);
    match a
    case SetClock(t) => QuietKeepsTruth(env, s, s.world.(now := t));
    case Start(key, owner, tool, permitted) => StartKeepsTruth(env, s, key, owner, tool, permitted);
    case Crash(c) => CrashKeepsTruth(env, s, c);
    case Beat(c) =>
      if c < |s.calls| && s.calls[c].pc.Held().Some? {
        var call := s.calls[c];
        BeatIsLeaseOnly(env.backend, s.world.rows, call.key, call.pc.token, s.world.now);
        QuietKeepsTruth(env, s, Apply(env, s, a).world);
      }
    case Step(c, fault, answer) =>
      if c < |s.calls| {
        StepMoves(env, s, c, fault, answer);
        StepKeepsTruth(env, s, StepCall(env, s, c, fault, answer), c, answer);
      }
  }

  lemma {:induction false} ExecKeepsTruth(env: Env, s: State, acts: seq<Action>)
    requires Truth(env, s)
    ensures Truth(env, Exec(env, s, acts))
    decreases |acts|
  {
    if acts != [] {
      ApplyKeepsTruth(env, s, acts[0]);
      ExecKeepsTruth(env, Apply(env, s, acts[0]), acts[1..]);
    }
  }

  lemma RunTruth(env: Env, acts: seq<Action>)
    ensures Truth(env, Run(env, acts))
  {
    RunInv(env, []);
    ExecKeepsTruth(env, INITIAL, acts);
  }

  // ---- the promises -----------------------------------------------------------------------------------------

  /** In every reachable state a row that records an outcome records the truth about the answer of
      its key's single dispatch. */
  lemma RowsTellTheAnswer(env: Env, acts: seq<Action>, k: JournalKey)
    requires var s := Run(env, acts);
             k in s.world.rows && s.world.rows[k].status.Settled() && !s.world.rows[k].status.ReconcileRequired?
    ensures var s := Run(env, acts);
            var row := s.world.rows[k];
            exists c: nat, a :: c < |s.calls| && s.calls[c].key == k && FinishedAs(s, c, a)
                                && Tells(env, s.calls[c].tool, a, row.status, row.result)
  {
    RunTruth(env, acts);
    var s := Run(env, acts);
    assert RowTrue(env, s, k);
    var a :| FinishedAs(s, s.gates[k], a)
      && Tells(env, s.calls[s.gates[k]].tool, a, s.world.rows[k].status, s.world.rows[k].result);
    assert s.calls[s.gates[k]].key == k;
  }

  /** What a returned outcome means, over every run. Every call that is done has returned its outcome
      to the history. If it never ran the command it was refused, harmlessly, or it repeats what the
      settled row tells. If it did, it gives the command's own outcome, and then the row tells the
      truth about it; or it says that the record could not be confirmed. */
  lemma ReturnsAreTrue(env: Env, acts: seq<Action>, c: nat)
    requires var s := Run(env, acts); c < |s.calls| && s.calls[c].pc.Done?
    ensures var s := Run(env, acts);
            var call := s.calls[c];
            && Entry(call.key, c, Returned(call.pc.out)) in s.log
            && (!HasRun(s, c) ==> WithoutRunning(env, s, call.key, call.pc.out))
            && (HasRun(s, c) ==> exists a :: FinishedAs(s, c, a) && AfterRunning(env, s, call.key, call.tool, a, call.pc.out))
  {
    RunTruth(env, acts);
    var s := Run(env, acts);
    assert CallTrue(env, s, c);
    var e := Entry(s.calls[c].key, c, Returned(s.calls[c].pc.out));
    assert ReturnTrue(env, s, e);
  }

  /** A retry after the fact, in every reachable state: a fresh call on a succeeded key gets the
      value that the key's single dispatch answered, and changes nothing. */
  lemma RetryGetsTheAnswer(env: Env, acts: seq<Action>, k: JournalKey, owner: string, tool: Tool, ins: seq<Input>)
    requires var s := Run(env, acts);
             k in s.world.rows && s.world.rows[k].status.Succeeded? && Quiet(ins) && |ins| >= 2
    ensures var s := Run(env, acts);
            var t := AloneAfter(env, s, k, owner, tool, ins);
            && t.world.rows == s.world.rows && |s.calls| < |t.calls|
            && exists c: nat, v :: c < |s.calls| && s.calls[c].key == k && FinishedAs(s, c, Value(v))
                                   && t.calls[|s.calls|].pc == Done(Ok(v))
  {
    var s := Run(env, acts);
    RowsTellTheAnswer(env, acts, k);
    AloneIsDrive(env, s, k, owner, tool, ins);
    SettledReplays(env, s.world, Call(k, owner, tool, Reserving), ins);
    var row := s.world.rows[k];
    var c: nat, a :| c < |s.calls| && s.calls[c].key == k && FinishedAs(s, c, a)
                     && Tells(env, s.calls[c].tool, a, row.status, row.result);
    assert a == Value(row.result);
  }

  // ---- heartbeats before the gate ---------------------------------------------------------------------------

  /** A never-dispatched row always has its whole lease ahead of its last heartbeat. */
  ghost predicate WholeLease(rows: Table)
  {
    forall k | k in rows && rows[k].status.Reserved? ::
      rows[k].lastBeat.Some? && rows[k].lease == Some(rows[k].lastBeat.value + rows[k].window)
  }

  lemma AdvanceKeepsLease(env: Env, w: World, call: Call, fault: Fault, answer: Answer)
    requires WholeLease(w.rows) && (call.pc.Completing? ==> call.pc.status.Settled())
    ensures WholeLease(Advance(env, w, call, fault, answer).0.rows)
  {
  }

  lemma ApplyKeepsLease(env: Env, s: State, a: Action)
    requires Inv(s) && WholeLease(s.world.rows)
    ensures WholeLease(Apply(env, s, a).world.rows)
  {
    if a.Step? && a.c < |s.calls| {
      assert PcOk(s, a.c);
      AdvanceKeepsLease(env, s.world, s.calls[a.c], a.fault, a.answer);
    }
  }

  lemma {:induction false} ExecKeepsLease(env: Env, s: State, acts: seq<Action>)
    requires Inv(s) && WholeLease(s.world.rows)
    ensures WholeLease(Exec(env, s, acts).world.rows)
    decreases |acts|
  {
    if acts != [] {
      ApplyKeepsLease(env, s, acts[0]);
      ApplyKeepsInv(env, s, acts[0]);
      ExecKeepsLease(env, Apply(env, s, acts[0]), acts[1..]);
    }
  }

  /** In every reachable state a heartbeat before the gate moves the lease to a whole window from
      now, on either backend and however many came before: a constant horizon. */
  lemma HeartbeatKeepsHorizon(env: Env, acts: seq<Action>, b: Backend, k: JournalKey, token: Token, now: Time)
    requires var rows := Run(env, acts).world.rows;
             && k in rows && rows[k].status.Reserved? && BeatRow(b, rows, k, token, now).1
    ensures var rows := Run(env, acts).world.rows;
            BeatRow(b, rows, k, token, now).0[k].lease == Some(now + rows[k].window)
  {
    RunInv(env, []);
    ExecKeepsLease(env, INITIAL, acts);
  }
}
