/** The claim protocol as a transition system: any number of concurrent calls of
    `ToolExecutor::execute_inner`, each a program counter, over one journal table.
    Safety is proved for EVERY action sequence: the clock may be set to any value at any
    time, any journal operation may fail before or after it took effect, and a call may
    crash at any point. */
module Protocol {
  import opened Prelude
  import opened Values
  import opened Journal

  datatype Tool = Tool(name: string, timeoutMs: nat, schema: Json)

  /** Why the executor itself refuses or fails; `Said` carries a handler's or a stored text. */
  datatype Message =
    | Said(text: string)
    | ReserveFailed | LoadFailed | RowMissing | RecoverFailed | BeginFailed | CompleteFailed
    | InProgress | Ambiguous | CannotBegin | Unrecorded | SchemaMismatch

  datatype ToolError =
    | NotPermitted
    | Dispatch(message: Message)
    | Timeout
    | OutputValidation(message: Message)
    | Conflict(message: Message)

  /** `record` renders an error as the stored JSON error object, `recorded` reads the text back
      (or yields the fixed default), `note` is the object `recover` leaves for a human. */
  datatype Env = Env(backend: Backend, record: ToolError -> Json, recorded: Json -> string, note: Json)

  datatype Outcome = Ok(value: Json) | Err(error: ToolError)

  /** What running the domain command yields: a value, an error, or the executor's own timeout. */
  datatype Answer = Value(value: Json) | Raised(error: ToolError) | Elapsed

  datatype Pc =
    | Reserving
    | Loading
    | Recovering
    | Gating(token: Token)
    | Cleared(token: Token)     // begin_dispatch said yes
    | Running(token: Token)     // the mutation may be happening
    | Completing(token: Token, status: Status, result: Json, win: Outcome, lose: ToolError)
    | Done(out: Outcome)
    | Crashed
  {
    predicate Active() { !Done? && !Crashed? }
    predicate BeforeDispatch() { Reserving? || Loading? || Recovering? || Gating? || Cleared? }
    /** Past the gate and still alive. */
    predicate PastGate() { Cleared? || Running? || Completing? }
    function Held(): Option<Token>
    {
      if Gating? || PastGate() then Some(token) else None
    }
  }

  datatype Call = Call(key: JournalKey, owner: string, tool: Tool, pc: Pc)

  datatype World = World(now: Time, rows: Table, nextToken: Token)

  /** 300 s floor plus the tool's own timeout, in whole seconds. */
  function LeaseSeconds(tool: Tool): int { 300 + tool.timeoutMs / 1000 }

  function Failing(call: Call, why: Message): Call { call.(pc := Done(Err(Dispatch(why)))) }

  function Conflicting(call: Call, why: Message): Call { call.(pc := Done(Err(Conflict(why)))) }

  /** A loser's decision from the journaled row. */
  function AfterLoad(env: Env, call: Call, row: Option<(Status, Json)>): Call
  {
    match row
    case None => Failing(call, RowMissing)
    case Some((status, result)) =>
      match status
      case Succeeded => call.(pc := Done(Ok(result)))
      case Failed => Failing(call, Said(env.recorded(result)))
      case UnknownOutcome | ReconcileRequired => Conflicting(call, Ambiguous)
      case _ => call.(pc := Recovering)
  }

  /** The terminal write chosen for each answer. */
  ghost function Settle(env: Env, call: Call, token: Token, answer: Answer): Pc
  {
    match answer
    case Elapsed =>
      Completing(token, UnknownOutcome, env.record(Timeout), Err(Timeout), Conflict(Unrecorded))
    case Raised(e) =>
      Completing(token, if e.Timeout? then UnknownOutcome else Failed, env.record(e), Err(e), Conflict(Unrecorded))
    case Value(v) =>
      if Conforms(v, call.tool.schema) then
        Completing(token, Succeeded, v, Ok(v), Dispatch(CompleteFailed))
      else
        var e := OutputValidation(SchemaMismatch);
        Completing(token, Failed, env.record(e), Err(e), Conflict(Unrecorded))
  }

  /** One atomic step of one call. */
  ghost function Advance(env: Env, w: World, call: Call, fault: Fault, answer: Answer): (World, Call)
  {
    match call.pc
    case Reserving => StepReserve(w, call, fault)
    case Loading =>
      (w,
       if !fault.NoFault? then Failing(call, LoadFailed)
       else AfterLoad(env, call, if call.key in w.rows then Some((w.rows[call.key].status, w.rows[call.key].result)) else None))
    case Recovering => StepRecover(env, w, call, fault)
    case Gating(token) =>
      var (rows, began) := BeginRow(env.backend, w.rows, call.key, token, w.now);
      (w.(rows := Landed(fault, w.rows, rows)),
       if !fault.NoFault? then Failing(call, BeginFailed)
       else if began then call.(pc := Cleared(token))
       else Conflicting(call, CannotBegin))
    case Cleared(token) => (w, call.(pc := Running(token)))
    case Running(token) => (w, call.(pc := Settle(env, call, token, answer)))
    case Completing(token, status, result, win, lose) =>
      var (rows, ok) := CompleteRow(w.rows, call.key, token, status, result);
      (w.(rows := Landed(fault, w.rows, rows)),
       call.(pc := Done(if fault.NoFault? && ok then win else Err(lose))))
    case _ => (w, call)
  }

  function StepReserve(w: World, call: Call, fault: Fault): (World, Call)
  {
    var (rows, reply) := ReserveRow(w.rows, call.key, call.owner, LeaseSeconds(call.tool), w.now, w.nextToken);
    (w.(rows := Landed(fault, w.rows, rows), nextToken := w.nextToken + 1),
     if !fault.NoFault? then Failing(call, ReserveFailed)
     else if reply.Fresh? then call.(pc := Gating(reply.token))
     else call.(pc := Loading))
  }

  function StepRecover(env: Env, w: World, call: Call, fault: Fault): (World, Call)
  {
    var (rows, reply) :=
      RecoverRow(w.rows, call.key, call.owner, LeaseSeconds(call.tool), w.now, w.nextToken, env.note);
    (w.(rows := Landed(fault, w.rows, rows), nextToken := w.nextToken + 1),
     if !fault.NoFault? then Failing(call, RecoverFailed)
     else if reply.Some? then call.(pc := Gating(reply.value))
     else Conflicting(call, InProgress))
  }

  /** What a call meets at one of its steps. */
  datatype Input = Input(now: Time, fault: Fault, answer: Answer)

  /** One call running to its end with nobody else moving. */
  ghost function Drive(env: Env, w: World, call: Call, ins: seq<Input>): (World, Call)
    decreases |ins|
  {
    if ins == [] || !call.pc.Active() then (w, call)
    else
      var (w', call') := Advance(env, w.(now := ins[0].now), call, ins[0].fault, ins[0].answer);
      Drive(env, w', call', ins[1..])
  }

  // ---- the whole system ------------------------------------------------------

  datatype Note = Dispatched | Finished(answer: Answer) | Returned(out: Outcome)

  datatype Entry = Entry(key: JournalKey, call: nat, note: Note)

  /** `gates` is bookkeeping: which call's begin_dispatch landed for a key. */
  datatype State = State(world: World, calls: seq<Call>, log: seq<Entry>, gates: map<JournalKey, nat>)

  datatype Action =
    | SetClock(t: Time)
    | Start(key: JournalKey, owner: string, tool: Tool, permitted: bool)
    | Step(c: nat, fault: Fault, answer: Answer)
    | Beat(c: nat)
    | Crash(c: nat)

  /** What a step adds to the history. */
  function Notes(before: Pc, after: Pc, answer: Answer): seq<Note>
  {
    if before.Cleared? && after.Running? then [Dispatched]
    else if before.Running? && after.Completing? then [Finished(answer)]
    else if !before.Done? && after.Done? then [Returned(after.out)]
    else []
  }

  function Entries(key: JournalKey, c: nat, notes: seq<Note>): seq<Entry>
  {
    if notes == [] then [] else [Entry(key, c, notes[0])]
  }

  ghost predicate GateLands(env: Env, w: World, call: Call, fault: Fault)
  {
    call.pc.Gating? && !fault.Refused? && BeginRow(env.backend, w.rows, call.key, call.pc.token, w.now).1
  }

  ghost function StepCall(env: Env, s: State, c: nat, fault: Fault, answer: Answer): State
    requires c < |s.calls|
  {
    var call := s.calls[c];
    var (w, call') := Advance(env, s.world, call, fault, answer);
    State(w, s.calls[c := call'],
          s.log + Entries(call.key, c, Notes(call.pc, call'.pc, answer)),
          if GateLands(env, s.world, call, fault) then s.gates[call.key := c] else s.gates)
  }

  ghost function Apply(env: Env, s: State, a: Action): State
  {
    match a
    case SetClock(t) => s.(world := s.world.(now := t))
    case Start(key, owner, tool, permitted) =>
      if permitted then s.(calls := s.calls + [Call(key, owner, tool, Reserving)])
      else
        var refusal := Err(NotPermitted);
        s.(calls := s.calls + [Call(key, owner, tool, Done(refusal))],
           log := s.log + [Entry(key, |s.calls|, Returned(refusal))])
    case Step(c, fault, answer) =>
      if c < |s.calls| then StepCall(env, s, c, fault, answer) else s
    case Beat(c) =>
      if c < |s.calls| && s.calls[c].pc.Held().Some? then
        s.(world := s.world.(rows :=
             BeatRow(env.backend, s.world.rows, s.calls[c].key, s.calls[c].pc.token, s.world.now).0))
      else s
    case Crash(c) =>
      if c < |s.calls| && s.calls[c].pc.Active() then s.(calls := s.calls[c := s.calls[c].(pc := Crashed)]) else s
  }

  const INITIAL := State(World(0, map[], 0), [], [], map[])

  ghost function Exec(env: Env, s: State, acts: seq<Action>): State
    decreases |acts|
  {
    if acts == [] then s else Exec(env, Apply(env, s, acts[0]), acts[1..])
  }

  /** The state after a whole run. */
  ghost function Run(env: Env, acts: seq<Action>): State { Exec(env, INITIAL, acts) }

  // ---- the invariant ---------------------------------------------------------

  ghost predicate RowsOk(s: State)
  {
    forall k | k in s.world.rows ::
      var row := s.world.rows[k];
      if row.status.Settled() then row.token == None
      else row.token.Some? && row.token.value < s.world.nextToken && row.lease.Some? && row.lastBeat.Some?
  }

  ghost predicate TokensOk(s: State)
  {
    forall c | 0 <= c < |s.calls| && s.calls[c].pc.Held().Some? :: s.calls[c].pc.token < s.world.nextToken
  }

  /** A key's gate has been passed exactly when its row has left `reserved`. */
  ghost predicate GatesOk(s: State)
  {
    && (forall k :: k in s.gates <==> k in s.world.rows && !s.world.rows[k].status.Reserved?)
    && (forall k | k in s.gates :: s.gates[k] < |s.calls| && s.calls[s.gates[k]].key == k)
  }

  ghost predicate HasRun(s: State, c: nat)
    requires c < |s.calls|
  {
    Entry(s.calls[c].key, c, Dispatched) in s.log
  }

  ghost predicate Produced(s: State, c: nat, v: Json)
    requires c < |s.calls|
  {
    && Entry(s.calls[c].key, c, Finished(Value(v))) in s.log
    && Conforms(v, s.calls[c].tool.schema)
  }

  ghost predicate PcOk(s: State, c: nat)
    requires c < |s.calls|
  {
    var call := s.calls[c];
    && (call.pc.PastGate() ==> call.key in s.gates && s.gates[call.key] == c)
    && (call.pc.Running? || call.pc.Completing? ==> HasRun(s, c))
    && (call.pc.Completing? ==>
          && call.pc.status.Settled()
          && (call.pc.status.Succeeded? ==> call.pc.win == Ok(call.pc.result) && Produced(s, c, call.pc.result))
          && (!call.pc.status.Succeeded? ==> call.pc.win.Err?))
  }

  ghost predicate CallsOk(s: State) { forall c | 0 <= c < |s.calls| :: PcOk(s, c) }

  ghost predicate EntryOk(s: State, e: Entry)
  {
    && e.call < |s.calls| && e.key == s.calls[e.call].key
    && (!e.note.Returned? ==>
          && e.key in s.gates && s.gates[e.key] == e.call
          && !s.calls[e.call].pc.BeforeDispatch()
          && (e.note.Finished? ==> !s.calls[e.call].pc.Running? && HasRun(s, e.call)))
    && (e.note.Returned? && e.note.out.Ok? ==>
          && e.key in s.world.rows && s.world.rows[e.key].status.Succeeded?
          && s.world.rows[e.key].result == e.note.out.value)
  }

  ghost predicate LogOk(s: State) { forall e | e in s.log :: EntryOk(s, e) }

  ghost predicate OnceOk(log: seq<Entry>)
  {
    forall i, j | 0 <= i < j < |log| && log[i].key == log[j].key ::
      && !(log[i].note.Dispatched? && log[j].note.Dispatched?)
      && !(log[i].note.Finished? && log[j].note.Finished?)
  }

  ghost predicate SuccessOk(s: State)
  {
    forall k | k in s.world.rows && s.world.rows[k].status.Succeeded? ::
      k in s.gates && s.gates[k] < |s.calls| && Produced(s, s.gates[k], s.world.rows[k].result)
  }

  ghost predicate Inv(s: State)
  {
    RowsOk(s) && TokensOk(s) && GatesOk(s) && CallsOk(s) && LogOk(s) && OnceOk(s.log) && SuccessOk(s)
  }
}
