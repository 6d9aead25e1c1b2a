/** `ToolExecutor`: the one execution path behind every entry point, on a live journal object
    and the bounded in-memory replay map. Nobody else moves while a method runs; what other
    calls may do in between is the subject of `Protocol`. */
module Executor {
  import opened Prelude
  import opened Values
  import opened Journal
  import opened Protocol
  import opened Safety
  import opened Progress
  import opened Outcomes
  import opened BoundedMaps

  datatype ToolSpec = ToolSpec(tool: Tool, idempotent: bool, readOnly: bool)

  /** What the domain command answered while the call was driven, if it was run at all. */
  ghost function Answered(env: Env, w: World, call: Call, ins: seq<Input>): Option<Answer>
    decreases |ins|
  {
    if ins == [] || !call.pc.Active() then None
    else if call.pc.Running? then Some(ins[0].answer)
    else
      var (w', call') := Advance(env, w.(now := ins[0].now), call, ins[0].fault, ins[0].answer);
      Answered(env, w', call', ins[1..])
  }

  /** The replay map after a command answered: a valid output is remembered, nothing else is. */
  ghost function Remembered(a: Assoc<Json>, key: string, tool: Tool, got: Option<Answer>, capacity: nat): Assoc<Json>
  {
    if got.Some? && got.value.Value? && Conforms(got.value.value, tool.schema)
    then Put(a, key, got.value.value, capacity) else a
  }

  /** The machine, started at (`w0`, `c0`), has come to (`w`, `c`) after `i` inputs. */
  ghost predicate Track(env: Env, w0: World, c0: Call, ins: seq<Input>, w: World, c: Call, i: nat, got: Option<Answer>)
  {
    && i <= |ins|
    && Drive(env, w0, c0, ins) == Drive(env, w, c, ins[i..])
    && Answered(env, w0, c0, ins) == if got.Some? then got else Answered(env, w, c, ins[i..])
  }

  lemma TrackStep(env: Env, w0: World, c0: Call, ins: seq<Input>, w: World, c: Call, i: nat, got: Option<Answer>)
    returns (w': World, c': Call)
    requires Track(env, w0, c0, ins, w, c, i, got) && i < |ins| && c.pc.Active()
    ensures (w', c') == Advance(env, w.(now := ins[i].now), c, ins[i].fault, ins[i].answer)
    ensures Track(env, w0, c0, ins, w', c', i + 1,
                  if got.None? && c.pc.Running? then Some(ins[i].answer) else got)
  {
    assert ins[i..][1..] == ins[i + 1..];
    assert ins[i..][0] == ins[i];
    var next := Advance(env, w.(now := ins[i].now), c, ins[i].fault, ins[i].answer);
    w', c' := next.0, next.1;
  }

  lemma TrackDone(env: Env, w0: World, c0: Call, ins: seq<Input>, w: World, c: Call, i: nat, got: Option<Answer>)
    requires Track(env, w0, c0, ins, w, c, i, got) && !c.pc.Active()
    ensures Drive(env, w0, c0, ins) == (w, c)
    ensures Answered(env, w0, c0, ins) == got
  {
    IdleDrive(env, w, c, ins[i..]);
  }

  class ToolExecutor {
    const owner: string
    const journal: JournalTable?
    const ram: BoundedMap<Json>
    /** The domain commands run through this executor, by execution key. */
    var commands: seq<string>

    ghost predicate Valid()
      reads this, ram
    {
      ram.Valid()
    }

    constructor (owner: string, journal: JournalTable?)
      ensures Valid() && fresh(ram) && ram.Contents() == [] && ram.capacity == 512 && commands == []
      ensures this.owner == owner && this.journal == journal
    {
      this.owner, this.journal, commands := owner, journal, [];
      ram := new BoundedMap(512);
    }

    /** The terminal status, stored result and outcomes for what the command answered. */
    method JudgeAnswer(env: Env, tool: Tool, answer: Answer)
      returns (status: Status, result: Json, win: Outcome, lose: ToolError)
      ensures forall call: Call, token: Token | call.tool == tool ::
        Settle(env, call, token, answer) == Completing(token, status, result, win, lose)
      ensures win.Ok? <==> answer.Value? && Conforms(answer.value, tool.schema)
      ensures win.Ok? ==> win.value == answer.value
      ensures win == Judged(tool, answer) && lose == Unconfirmed(tool, answer)
      ensures Tells(env, tool, answer, status, result)
    {
      match answer {
        case Elapsed =>
          status, result, win, lose := UnknownOutcome, env.record(Timeout), Err(Timeout), Conflict(Unrecorded);
        case Raised(e) =>
          status := if e.Timeout? then UnknownOutcome else Failed;
          result, win, lose := env.record(e), Err(e), Conflict(Unrecorded);
        case Value(output) =>
          var valid := ValidateOutput(output, tool.schema);
          if valid {
            status, result, win, lose := Succeeded, output, Ok(output), Dispatch(CompleteFailed);
          } else {
            var e := OutputValidation(SchemaMismatch);
            status, result, win, lose := Failed, env.record(e), Err(e), Conflict(Unrecorded);
          }
      }
    }

    /** After the gate: run the command, remember a valid output, write the terminal row. */
    method DispatchBegun(env: Env, tool: Tool, key: JournalKey, token: Token, ins: seq<Input>, i: nat,
                         ghost w: World) returns (out: Outcome)
      requires Valid() && journal != null && i + 3 <= |ins|
      requires w.rows == journal.rows && w.nextToken == journal.nextToken
      modifies this`commands, journal`rows, ram
      ensures Valid()
      ensures var call := Call(key, owner, tool, Cleared(token));
              var (w', call') := Drive(env, w, call, ins[i..]);
              && call'.pc == Done(out) && journal.rows == w'.rows && journal.nextToken == w'.nextToken
              && Answered(env, w, call, ins[i..]) == Some(ins[i + 1].answer)
      ensures commands == old(commands) + [key.key]
      ensures ram.Contents() == Remembered(old(ram.Contents()), key.key, tool, Some(ins[i + 1].answer), ram.capacity)
    {
      ghost var c0 := Call(key, owner, tool, Cleared(token));
      ghost var tail := ins[i..];
      assert Track(env, w, c0, tail, w, c0, 0, None) by { assert tail[0..] == tail; }
      commands := commands + [key.key];
      ghost var v, c := TrackStep(env, w, c0, tail, w, c0, 0, None);
      v, c := TrackStep(env, w, c0, tail, v, c, 1, None);
      var status, result, win, lose := JudgeAnswer(env, tool, ins[i + 1].answer);
      assert c.pc == Completing(token, status, result, win, lose);
      if win.Ok? {
        ram.Insert(key.key, win.value);
      }
      var done := journal.Complete(key, token, status, result, ins[i + 2].fault);
      v, c := TrackStep(env, w, c0, tail, v, c, 2, Some(ins[i + 1].answer));
      TrackDone(env, w, c0, tail, v, c, 3, Some(ins[i + 1].answer));
      out := if done == Got(true) then win else Err(lose);
    }

    /** `dispatch_claimed`: the durable gate first, and nothing runs unless it opened. */
    method DispatchClaimed(env: Env, tool: Tool, key: JournalKey, token: Token, ins: seq<Input>, i: nat,
                           ghost w: World) returns (out: Outcome)
      requires Valid() && journal != null && env.backend == journal.backend
      requires i + 4 <= |ins|
      requires w.rows == journal.rows && w.nextToken == journal.nextToken
      modifies this`commands, journal`rows, ram
      ensures Valid()
      ensures var call := Call(key, owner, tool, Gating(token));
              var (w', call') := Drive(env, w, call, ins[i..]);
              var got := Answered(env, w, call, ins[i..]);
              && call'.pc == Done(out) && journal.rows == w'.rows && journal.nextToken == w'.nextToken
              && commands == old(commands) + (if got.Some? then [key.key] else [])
              && ram.Contents() == Remembered(old(ram.Contents()), key.key, tool, got, ram.capacity)
    {
      ghost var c0 := Call(key, owner, tool, Gating(token));
      ghost var tail := ins[i..];
      assert Track(env, w, c0, tail, w, c0, 0, None) by { assert tail[0..] == tail; }
      var began := journal.BeginDispatch(key, token, ins[i].now, ins[i].fault);
      ghost var v, c := TrackStep(env, w, c0, tail, w, c0, 0, None);
      match began {
        case JournalError =>
          TrackDone(env, w, c0, tail, v, c, 1, None);
          out := Err(Dispatch(BeginFailed));
        case Got(false) =>
          TrackDone(env, w, c0, tail, v, c, 1, None);
          out := Err(Conflict(CannotBegin));
        case Got(true) =>
          assert c == c0.(pc := Cleared(token)) && tail[1..] == ins[i + 1..];
          out := DispatchBegun(env, tool, key, token, ins, i + 1, v);
      }
    }

    /** The journaled path of `execute_inner`: claim, or learn what became of the claim. */
    method ExecuteJournaled(env: Env, tool: Tool, key: JournalKey, ins: seq<Input>, ghost w: World)
      returns (out: Outcome)
      requires Valid() && journal != null && env.backend == journal.backend && |ins| >= 7
      requires w.rows == journal.rows && w.nextToken == journal.nextToken
      modifies this`commands, journal, ram
      ensures Valid()
      ensures var call := Call(key, owner, tool, Reserving);
              var (w', call') := Drive(env, w, call, ins);
              var got := Answered(env, w, call, ins);
              && call'.pc == Done(out) && journal.rows == w'.rows && journal.nextToken == w'.nextToken
              && commands == old(commands) + (if got.Some? then [key.key] else [])
              && ram.Contents() == Remembered(old(ram.Contents()), key.key, tool, got, ram.capacity)
    {
      ghost var c0 := Call(key, owner, tool, Reserving);
      assert Track(env, w, c0, ins, w, c0, 0, None) by { assert ins[0..] == ins; }
      var secs := LeaseSeconds(tool);
      var claim := journal.Reserve(key, owner, secs, ins[0].now, ins[0].fault);
      ghost var v, c := TrackStep(env, w, c0, ins, w, c0, 0, None);
      match claim {
        case JournalError =>
          TrackDone(env, w, c0, ins, v, c, 1, None);
          out := Err(Dispatch(ReserveFailed));
        case Got(Fresh(token)) =>
          out := DispatchClaimed(env, tool, key, token, ins, 1, v);
        case Got(AlreadyExists) =>
          out := ReplayOrRecover(env, tool, key, ins, v);
      }
    }

    /** A loser loads the row and replays, conflicts, or reclaims a never-dispatched claim. */
    method ReplayOrRecover(env: Env, tool: Tool, key: JournalKey, ins: seq<Input>, ghost w: World)
      returns (out: Outcome)
      requires Valid() && journal != null && env.backend == journal.backend && |ins| >= 7
      requires w.rows == journal.rows && w.nextToken == journal.nextToken
      modifies this`commands, journal, ram
      ensures Valid()
      ensures var call := Call(key, owner, tool, Loading);
              var (w', call') := Drive(env, w, call, ins[1..]);
              var got := Answered(env, w, call, ins[1..]);
              && call'.pc == Done(out) && journal.rows == w'.rows && journal.nextToken == w'.nextToken
              && commands == old(commands) + (if got.Some? then [key.key] else [])
              && ram.Contents() == Remembered(old(ram.Contents()), key.key, tool, got, ram.capacity)
    {
      ghost var c0 := Call(key, owner, tool, Loading);
      ghost var tail := ins[1..];
      assert Track(env, w, c0, tail, w, c0, 0, None) by { assert tail[0..] == tail; }
      var loaded := journal.Load(key, ins[1].fault);
      ghost var v, c := TrackStep(env, w, c0, tail, w, c0, 0, None);
      if loaded.JournalError? {
        out := Err(Dispatch(LoadFailed));
      } else if loaded.value.None? {
        out := Err(Dispatch(RowMissing));
      } else {
        var (status, result) := loaded.value.value;
        match status {
          case Succeeded => out := Ok(result);
          case Failed => out := Err(Dispatch(Said(env.recorded(result))));
          case UnknownOutcome | ReconcileRequired => out := Err(Conflict(Ambiguous));
          case Reserved | Dispatching | Executing =>
            assert c == c0.(pc := Recovering);
            out := RecoverClaim(env, tool, key, ins, v);
            assert tail[1..] == ins[2..];
            return;
        }
      }
      TrackDone(env, w, c0, tail, v, c, 1, None);
    }

    method RecoverClaim(env: Env, tool: Tool, key: JournalKey, ins: seq<Input>, ghost w: World)
      returns (out: Outcome)
      requires Valid() && journal != null && env.backend == journal.backend && |ins| >= 7
      requires w.rows == journal.rows && w.nextToken == journal.nextToken
      modifies this`commands, journal, ram
      ensures Valid()
      ensures var call := Call(key, owner, tool, Recovering);
              var (w', call') := Drive(env, w, call, ins[2..]);
              var got := Answered(env, w, call, ins[2..]);
              && call'.pc == Done(out) && journal.rows == w'.rows && journal.nextToken == w'.nextToken
              && commands == old(commands) + (if got.Some? then [key.key] else [])
              && ram.Contents() == Remembered(old(ram.Contents()), key.key, tool, got, ram.capacity)
    {
      ghost var c0 := Call(key, owner, tool, Recovering);
      ghost var tail := ins[2..];
      assert Track(env, w, c0, tail, w, c0, 0, None) by { assert tail[0..] == tail; }
      var secs := LeaseSeconds(tool);
      var taken := journal.Recover(key, owner, secs, ins[2].now, env.note, ins[2].fault);
      ghost var v, c := TrackStep(env, w, c0, tail, w, c0, 0, None);
      match taken {
        case JournalError =>
          TrackDone(env, w, c0, tail, v, c, 1, None);
          out := Err(Dispatch(RecoverFailed));
        case Got(None) =>
          TrackDone(env, w, c0, tail, v, c, 1, None);
          out := Err(Conflict(InProgress));
        case Got(Some(token)) =>
          assert tail[1..] == ins[3..];
          out := DispatchClaimed(env, tool, key, token, ins, 3, v);
      }
    }

    /** `execute_inner`. A read-only tool always runs afresh and leaves no trace. A mutating
        idempotent one goes through the journal when there is one, exactly as the protocol
        machine would; without a journal the in-memory map alone decides. */
    method ExecuteInner(env: Env, permitted: bool, spec: ToolSpec, key: JournalKey, ins: seq<Input>)
      returns (out: Outcome)
      requires Valid() && |ins| >= 7
      requires journal != null ==> env.backend == journal.backend
      modifies this`commands, journal, ram
      ensures Valid()
      ensures !permitted ==>
        && out == Err(NotPermitted) && commands == old(commands) && ram.Contents() == old(ram.Contents())
        && (journal != null ==> unchanged(journal))
      ensures permitted && spec.idempotent && !spec.readOnly && journal != null ==>
        var w := World(ins[0].now, old(journal.rows), old(journal.nextToken));
        var call := Call(key, owner, spec.tool, Reserving);
        var (w', call') := Drive(env, w, call, ins);
        var got := Answered(env, w, call, ins);
        && call'.pc == Done(out) && journal.rows == w'.rows && journal.nextToken == w'.nextToken
        && commands == old(commands) + (if got.Some? then [key.key] else [])
        && ram.Contents() == Remembered(old(ram.Contents()), key.key, spec.tool, got, ram.capacity)
      ensures permitted && (!spec.idempotent || spec.readOnly) ==>
        && out == Judged(spec.tool, ins[0].answer) && commands == old(commands) + [key.key]
        && ram.Contents() == old(ram.Contents()) && (journal != null ==> unchanged(journal))
      ensures permitted && spec.idempotent && !spec.readOnly && journal == null ==>
        var cached := Lookup(old(ram.Contents()), key.key);
        if cached.Some? then
          out == Ok(cached.value) && commands == old(commands) && ram.Contents() == old(ram.Contents())
        else
          && out == Judged(spec.tool, ins[0].answer) && commands == old(commands) + [key.key]
          && ram.Contents() == Remembered(old(ram.Contents()), key.key, spec.tool, Some(ins[0].answer), ram.capacity)
    {
      if !permitted { return Err(NotPermitted); }
      if spec.idempotent && !spec.readOnly {
        if journal != null {
          out := ExecuteJournaled(env, spec.tool, key, ins, World(ins[0].now, journal.rows, journal.nextToken));
          return;
        }
        var cached := ram.Get(key.key);
        if cached.Some? { return Ok(cached.value); }
      }
      commands := commands + [key.key];
      match ins[0].answer {
        case Elapsed => return Err(Timeout);
        case Raised(e) => return Err(e);
        case Value(output) =>
          var valid := ValidateOutput(output, spec.tool.schema);
          if !valid { return Err(OutputValidation(SchemaMismatch)); }
          if spec.idempotent && !spec.readOnly {
            ram.Insert(key.key, output);
          }
          return Ok(output);
      }
    }
  }

  // ---- when the command is run ---------------------------------------------------------

  lemma AnsweredStep(env: Env, w: World, call: Call, ins: seq<Input>) returns (w': World, call': Call)
    requires ins != [] && call.pc.Active() && !call.pc.Running?
    ensures (w', call') == Advance(env, w.(now := ins[0].now), call, ins[0].fault, ins[0].answer)
    ensures Answered(env, w, call, ins) == Answered(env, w', call', ins[1..])
  {
    var next := Advance(env, w.(now := ins[0].now), call, ins[0].fault, ins[0].answer);
    w', call' := next.0, next.1;
  }

  /** The first call ever for a key, alone and without journal errors, runs the command, if it passes
      the gate within 300 seconds of its claim. */
  lemma FirstCallIsRun(env: Env, w: World, call: Call, ins: seq<Input>)
    requires Quiet(ins) && |ins| >= 5 && call.pc.Reserving? && call.key !in w.rows
    requires ins[1].now < ins[0].now + 300_000_000
    ensures Answered(env, w, call, ins) == Some(ins[3].answer)
  {
    var w1, c1 := AnsweredStep(env, w, call, ins);
    ReserveClaims(w.rows, call.key, call.owner, LeaseSeconds(call.tool), ins[0].now, w.nextToken);
    GateOpensIff(env.backend, w1.rows, call.key, w.nextToken, ins[1].now);
    assert c1 == call.(pc := Gating(w.nextToken));
    var w2, c2 := AnsweredStep(env, w1, c1, ins[1..]);
    assert c2 == call.(pc := Cleared(w.nextToken)) && ins[1..][1..] == ins[2..];
    var w3, c3 := AnsweredStep(env, w2, c2, ins[2..]);
    assert c3 == call.(pc := Running(w.nextToken)) && ins[2..][1..] == ins[3..];
  }

  /** A call that finds its key settled never runs it, whatever fails. */
  lemma SettledIsNotRun(env: Env, w: World, call: Call, ins: seq<Input>)
    requires call.pc.Reserving? && call.key in w.rows && w.rows[call.key].status.Settled()
    ensures Answered(env, w, call, ins).None?
  {
    if ins != [] {
      var w1, c1 := AnsweredStep(env, w, call, ins);
      if c1.pc.Active() && ins[1..] != [] {
        assert c1 == call.(pc := Loading) && w1.rows == w.rows;
        var w2, c2 := AnsweredStep(env, w1, c1, ins[1..]);
        assert !c2.pc.Active();
      }
    }
  }

  /** The replay map remembers exactly a valid answer, and reads it back at once. */
  lemma RememberedReadsBack(a: Assoc<Json>, key: string, tool: Tool, answer: Answer, capacity: nat)
    requires DistinctKeys(a) && |a| <= capacity && capacity > 0
    ensures var b := Remembered(a, key, tool, Some(answer), capacity);
            && (Judged(tool, answer).Ok? ==> Lookup(b, key) == Some(answer.value))
            && (Judged(tool, answer).Err? ==> b == a)
    ensures Remembered(a, key, tool, None, capacity) == a
  {
    if Valid(answer, tool) { PutReadsBack(a, key, answer.value, capacity); }
  }

  // ---- what an executor does is what the protocol allows ------------------------------

  lemma {:induction false} LogGrows(env: Env, s: State, acts: seq<Action>)
    ensures s.log <= Exec(env, s, acts).log
    decreases |acts|
  {
    if acts != [] { LogGrows(env, Apply(env, s, acts[0]), acts[1..]); }
  }

  /** The command an executor runs is an entry of the protocol's history. */
  lemma {:induction false} AnswerIsLogged(env: Env, s: State, c: nat, ins: seq<Input>) returns (at: nat)
    requires c < |s.calls| && Answered(env, s.world, s.calls[c], ins).Some?
    ensures var log := Exec(env, s, Actions(c, ins)).log;
            |s.log| <= at < |log| &&
            log[at] == Entry(s.calls[c].key, c, Finished(Answered(env, s.world, s.calls[c], ins).value))
    decreases |ins|
  {
    var acts := Actions(c, ins);
    var s1 := Apply(env, s, acts[0]);
    var s2 := Apply(env, s1, acts[1]);
    assert acts[1..][1..] == Actions(c, ins[1..]);
    assert Exec(env, s, acts) == Exec(env, s2, Actions(c, ins[1..]));
    if s.calls[c].pc.Running? {
      at := |s.log|;
      LogGrows(env, s2, Actions(c, ins[1..]));
    } else {
      at := AnswerIsLogged(env, s2, c, ins[1..]);
    }
  }

  /** Whoever finishes a key's command is the one call that started it, and finishes it once. */
  lemma OneCommander(t: State, i: nat, at: nat)
    requires Inv(t) && i < at < |t.log| && t.log[i].key == t.log[at].key && t.log[at].note.Finished?
    ensures !t.log[i].note.Finished?
    ensures t.log[i].note.Dispatched? ==> t.log[i].call == t.log[at].call
  {
    assert EntryOk(t, t.log[i]) && EntryOk(t, t.log[at]);
  }

  /** Once the command of a key has been started by another call, or finished by any, no executor
      driving a call for that key runs it again: not even if the one that started it crashed. */
  lemma NeverRunAgain(env: Env, acts: seq<Action>, c: nat, ins: seq<Input>, i: nat)
    requires var s := Run(env, acts);
             && c < |s.calls| && i < |s.log| && s.log[i].key == s.calls[c].key
             && ((s.log[i].note.Dispatched? && s.log[i].call != c) || s.log[i].note.Finished?)
    ensures var s := Run(env, acts);
            Answered(env, s.world, s.calls[c], ins).None?
  {
    var s := Run(env, acts);
    var t := Exec(env, s, Actions(c, ins));
    RunInv(env, acts);
    ExecKeepsInv(env, s, Actions(c, ins));
    LogGrows(env, s, Actions(c, ins));
    assert t.log[i] == s.log[i];
    if Answered(env, s.world, s.calls[c], ins).Some? {
      var at := AnswerIsLogged(env, s, c, ins);
      OneCommander(t, i, at);
    }
  }
}
