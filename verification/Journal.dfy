/** The durable command journal: one row per (tenant, execution key), five operations,
    each a single atomic statement against the table. */
module Journal {
  import opened Prelude
  import opened Values

  /** The table is served by two implementations. Their predicates differ at the edges. */
  datatype Backend = Postgres | Memory

  /** Microseconds. */
  type Time = int
  const SECOND: int := 1_000_000

  type Token = nat

  datatype Status =
    | Reserved
    | Dispatching
    | Executing
    | Succeeded
    | Failed
    | UnknownOutcome
    | ReconcileRequired
  {
    predicate Settled() { !Reserved? && !Dispatching? && !Executing? }

    function Rank(): nat { if Reserved? then 0 else if Settled() then 2 else 1 }
  }

  datatype JournalKey = JournalKey(tenant: nat, key: string)

  /** `window` is the in-memory lease length, `lastBeat` the Postgres heartbeat column;
      each backend renews from its own. */
  datatype Row = Row(
    status: Status,
    result: Json,
    owner: Option<string>,
    token: Option<Token>,
    lease: Option<Time>,
    window: int,
    lastBeat: Option<Time>,
    attempt: nat)

  type Table = map<JournalKey, Row>

  datatype Reservation = Fresh(token: Token) | AlreadyExists

  /** The lease test of the pre-dispatch gate. */
  predicate GateLive(b: Backend, lease: Option<Time>, now: Time)
  {
    match b
    case Postgres => lease.None? || now < lease.value
    case Memory => lease.Some? && now <= lease.value
  }

  predicate Expired(lease: Option<Time>, now: Time) { lease.None? || lease.value < now }

  /** The lease a successful heartbeat leaves. */
  function Renewed(b: Backend, row: Row, now: Time): Option<Time>
    requires row.lease.Some?
  {
    match b
    case Postgres => if row.lastBeat.Some? then Some(now + (row.lease.value - row.lastBeat.value)) else None
    case Memory => Some(now + row.window)
  }

  // `note` below is the fixed JSON error object recorded on a row marked for reconciliation.

  // ---- what each operation does to the table --------------------------------

  function ReserveRow(rows: Table, k: JournalKey, owner: string, secs: int, now: Time, drawn: Token)
    : (Table, Reservation)
  {
    if k in rows then (rows, AlreadyExists)
    else
      (rows[k := Row(Reserved, EMPTY_OBJECT, Some(owner), Some(drawn), Some(now + secs * SECOND),
                     secs * SECOND, Some(now), 1)],
       Fresh(drawn))
  }

  function BeginRow(b: Backend, rows: Table, k: JournalKey, token: Token, now: Time): (Table, bool)
  {
    if k in rows && rows[k].status.Reserved? && rows[k].token == Some(token) && GateLive(b, rows[k].lease, now) then
      (rows[k := rows[k].(status := Dispatching, lastBeat := Some(now))], true)
    else (rows, false)
  }

  function BeatRow(b: Backend, rows: Table, k: JournalKey, token: Token, now: Time): (Table, bool)
  {
    if k in rows && rows[k].token == Some(token) && !rows[k].status.Settled()
       && rows[k].lease.Some? && now <= rows[k].lease.value then
      (rows[k := rows[k].(lease := Renewed(b, rows[k], now), lastBeat := Some(now))], true)
    else (rows, false)
  }

  function RecoverRow(rows: Table, k: JournalKey, owner: string, secs: int, now: Time, drawn: Token,
                      note: Json)
    : (Table, Option<Token>)
  {
    if k !in rows || !Expired(rows[k].lease, now) then (rows, None)
    else
      match rows[k].status
      case Reserved =>
        (rows[k := Row(Reserved, EMPTY_OBJECT, Some(owner), Some(drawn), Some(now + secs * SECOND),
                       secs * SECOND, Some(now), rows[k].attempt + 1)],
         Some(drawn))
      case Dispatching | Executing =>
        (rows[k := rows[k].(status := ReconcileRequired, result := note,
                            owner := None, token := None, lease := None, lastBeat := None)],
         None)
      case _ => (rows, None)
  }

  function CompleteRow(rows: Table, k: JournalKey, token: Token, status: Status, result: Json): (Table, bool)
  {
    if k in rows && rows[k].token == Some(token) then
      (rows[k := rows[k].(status := status, result := result,
                          owner := None, token := None, lease := None, lastBeat := None)], true)
    else (rows, false)
  }

  /** A journal call may fail without effect, or take effect and lose its reply. */
  datatype Fault = NoFault | Refused | ReplyLost

  datatype Reply<+T> = Got(value: T) | JournalError

  function Landed(fault: Fault, before: Table, after: Table): Table
  {
    if fault.Refused? then before else after
  }

  /** A refused call did nothing; one whose reply was lost did everything. */
  lemma FaultsExact(before: Table, after: Table)
    ensures Landed(Refused, before, after) == before
    ensures Landed(ReplyLost, before, after) == after == Landed(NoFault, before, after)
  {
  }

  // ---- the table as an object -----------------------------------------------

  class JournalTable {
    const backend: Backend
    var rows: Table
    /** Tokens below this have been drawn; a fresh claim token is the next one. */
    var nextToken: Token

    constructor (backend: Backend)
      ensures this.backend == backend && rows == map[] && nextToken == 0
    {
      this.backend := backend;
      rows, nextToken := map[], 0;
    }

    method Reserve(k: JournalKey, owner: string, secs: int, now: Time, fault: Fault) returns (r: Reply<Reservation>)
      modifies this
      ensures var (after, said) := ReserveRow(old(rows), k, owner, secs, now, old(nextToken));
              && rows == Landed(fault, old(rows), after)
              && r == if fault.NoFault? then Got(said) else JournalError
      ensures nextToken == old(nextToken) + 1
    {
      var claim := nextToken;
      nextToken := nextToken + 1;
      if fault.Refused? { return JournalError; }
      var outcome := AlreadyExists;
      if k !in rows {
        var expires := now + secs * SECOND;
        rows := rows[k := Row(Reserved, EMPTY_OBJECT, Some(owner), Some(claim), Some(expires),
                              secs * SECOND, Some(now), 1)];
        outcome := Fresh(claim);
      }
      r := if fault.ReplyLost? then JournalError else Got(outcome);
    }

    method Load(k: JournalKey, fault: Fault) returns (r: Reply<Option<(Status, Json)>>)
      ensures !fault.NoFault? ==> r == JournalError
      ensures fault.NoFault? ==> r == Got(if k in rows then Some((rows[k].status, rows[k].result)) else None)
    {
      if !fault.NoFault? { return JournalError; }
      r := Got(if k in rows then Some((rows[k].status, rows[k].result)) else None);
    }

    method BeginDispatch(k: JournalKey, token: Token, now: Time, fault: Fault) returns (r: Reply<bool>)
      modifies this`rows
      ensures var (after, began) := BeginRow(backend, old(rows), k, token, now);
              && rows == Landed(fault, old(rows), after)
              && r == if fault.NoFault? then Got(began) else JournalError
    {
      if fault.Refused? { return JournalError; }
      var began := false;
      if k in rows {
        var row := rows[k];
        if row.status.Reserved? && row.token == Some(token) && GateLive(backend, row.lease, now) {
          rows := rows[k := row.(status := Dispatching, lastBeat := Some(now))];
          began := true;
        }
      }
      r := if fault.ReplyLost? then JournalError else Got(began);
    }

    method Heartbeat(k: JournalKey, token: Token, now: Time) returns (renewed: bool)
      modifies this`rows
      ensures (rows, renewed) == BeatRow(backend, old(rows), k, token, now)
    {
      if k !in rows { return false; }
      var row := rows[k];
      if row.token != Some(token) || row.status.Settled() || row.lease.None? || row.lease.value < now {
        return false;
      }
      rows := rows[k := row.(lease := Renewed(backend, row, now), lastBeat := Some(now))];
      renewed := true;
    }

    method Recover(k: JournalKey, owner: string, secs: int, now: Time, note: Json, fault: Fault)
      returns (r: Reply<Option<Token>>)
      modifies this
      ensures var (after, taken) := RecoverRow(old(rows), k, owner, secs, now, old(nextToken), note);
              && rows == Landed(fault, old(rows), after)
              && r == if fault.NoFault? then Got(taken) else JournalError
      ensures nextToken == old(nextToken) + 1
    {
      var claim := nextToken;
      nextToken := nextToken + 1;
      if fault.Refused? { return JournalError; }
      var taken := None;
      if k in rows {
        var row := rows[k];
        var claimGone := row.lease.None? || row.lease.value < now;
        if row.status.Reserved? && claimGone {
          rows := rows[k := Row(Reserved, EMPTY_OBJECT, Some(owner), Some(claim), Some(now + secs * SECOND),
                                secs * SECOND, Some(now), row.attempt + 1)];
          taken := Some(claim);
        } else if (row.status.Dispatching? || row.status.Executing?) && claimGone {
          rows := rows[k := row.(status := ReconcileRequired, result := note,
                                 owner := None, token := None, lease := None, lastBeat := None)];
        }
      }
      r := if fault.ReplyLost? then JournalError else Got(taken);
    }

    method Complete(k: JournalKey, token: Token, status: Status, result: Json, fault: Fault) returns (r: Reply<bool>)
      modifies this`rows
      ensures var (after, ok) := CompleteRow(old(rows), k, token, status, result);
              && rows == Landed(fault, old(rows), after)
              && r == if fault.NoFault? then Got(ok) else JournalError
    {
      if fault.Refused? { return JournalError; }
      var ok := false;
      if k in rows {
        var row := rows[k];
        if row.token == Some(token) {
          rows := rows[k := row.(status := status, result := result,
                                 owner := None, token := None, lease := None, lastBeat := None)];
          ok := true;
        }
      }
      r := if fault.ReplyLost? then JournalError else Got(ok);
    }
  }

  // ---- where the two backends part ------------------------------------------

  /** At the very instant a lease expires Postgres neither opens the gate nor lets anyone
      reclaim; in memory the gate is still open. Elsewhere they agree on a leased row. */
  lemma GateEdge(lease: Time, now: Time)
    ensures GateLive(Postgres, Some(lease), now) == GateLive(Memory, Some(lease), now) <==> now != lease
    ensures GateLive(Memory, Some(lease), now) <==> !Expired(Some(lease), now)
  {
  }

  /** The gate stamps `last_heartbeat` without moving the lease, and Postgres renews by the lease
      minus that stamp. So the first heartbeat after the gate renews a row by less than a
      heartbeat without the gate would have: less by the time since the claim or the last
      heartbeat. The two agree exactly when no time had passed. In memory the gate costs nothing. */
  lemma RenewalShrinksByGateDelay(rows: Table, k: JournalKey, token: Token, began: Time, now: Time)
    requires k in rows && rows[k].status.Reserved? && rows[k].token == Some(token)
    requires rows[k].lease.Some? && rows[k].lastBeat.Some?
    requires began < rows[k].lease.value && now <= rows[k].lease.value
    ensures var row := rows[k];
            var gated := BeginRow(Postgres, rows, k, token, began);
            var pg, pgGated := BeatRow(Postgres, rows, k, token, now), BeatRow(Postgres, gated.0, k, token, now);
            && gated.1 && pg.1 && pgGated.1 && pg.0[k].lease.Some?
            && pgGated.0[k].lease == Some(pg.0[k].lease.value - (began - row.lastBeat.value))
            && (pgGated.0[k].lease == pg.0[k].lease <==> began == row.lastBeat.value)
    ensures var gated := BeginRow(Memory, rows, k, token, began);
            && gated.1 && BeatRow(Memory, gated.0, k, token, now).1
            && BeatRow(Memory, gated.0, k, token, now).0[k].lease == BeatRow(Memory, rows, k, token, now).0[k].lease
  {
  }
}
