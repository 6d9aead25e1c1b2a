/** Progress of the claim protocol: no journal row can be wedged. */
module Progress {
  import opened Prelude
  import opened Values
  import opened Journal
  import opened Protocol
  import opened Safety

  /** The actions of call `c` stepping alone through `ins`. */
  function Actions(c: nat, ins: seq<Input>): seq<Action>
  {
    if ins == [] then []
    else [SetClock(ins[0].now), Step(c, ins[0].fault, ins[0].answer)] + Actions(c, ins[1..])
  }

  /** Driving one call is a run of the whole system in which only that call moves. */
  lemma {:induction false} DriveIsRun(env: Env, s: State, c: nat, ins: seq<Input>)
    requires c < |s.calls|
    ensures var t := Exec(env, s, Actions(c, ins));
            var (w, call) := Drive(env, s.world, s.calls[c], ins);
            && |t.calls| == |s.calls| && t.calls[c] == call
            && t.world.rows == w.rows && t.world.nextToken == w.nextToken
    decreases |ins|
  {
    if ins != [] {
      var acts := Actions(c, ins);
      var s1 := Apply(env, s, acts[0]);
      var s2 := Apply(env, s1, acts[1]);
      assert acts[1..][1..] == Actions(c, ins[1..]);
      assert Exec(env, s, acts) == Exec(env, s2, Actions(c, ins[1..]));
      DriveIsRun(env, s2, c, ins[1..]);
      if !s.calls[c].pc.Active() { IdleDrive(env, s.world, s.calls[c], ins); IdleDrive(env, s2.world, s2.calls[c], ins[1..]); }
    }
  }

  lemma IdleDrive(env: Env, w: World, call: Call, ins: seq<Input>)
    requires !call.pc.Active()
    ensures Drive(env, w, call, ins) == (w, call)
  {
  }

  ghost predicate Quiet(ins: seq<Input>) { forall i | 0 <= i < |ins| :: ins[i].fault.NoFault? }

  /** A live claim holder, alone: the gate opens, the command runs once, the row settles as the
      answer dictates and the caller gets the matching outcome. */
  lemma ClaimRunsOut(env: Env, w: World, call: Call, ins: seq<Input>)
    requires Quiet(ins) && |ins| >= 4
    requires call.pc.Gating? && call.key in w.rows
    requires var row := w.rows[call.key];
             row.status.Reserved? && row.token == Some(call.pc.token) && GateLive(env.backend, row.lease, ins[0].now)
    ensures var (w', call') := Drive(env, w, call, ins);
            var end := Settle(env, call, call.pc.token, ins[2].answer);
            && call.key in w'.rows && w'.rows[call.key].status == end.status && end.status.Settled()
            && w'.rows[call.key].result == end.result
            && call'.pc == Done(end.win)
  {
    var token := call.pc.token;
    var (w1, c1) := Advance(env, w.(now := ins[0].now), call, ins[0].fault, ins[0].answer);
    assert c1 == call.(pc := Cleared(token)) && w1.rows[call.key].token == Some(token);
    var (w2, c2) := Advance(env, w1.(now := ins[1].now), c1, ins[1].fault, ins[1].answer);
    assert c2 == call.(pc := Running(token)) && w2.rows == w1.rows;
    var (w3, c3) := Advance(env, w2.(now := ins[2].now), c2, ins[2].fault, ins[2].answer);
    assert c3 == call.(pc := Settle(env, call, token, ins[2].answer)) && w3.rows == w1.rows;
    var (w4, c4) := Advance(env, w3.(now := ins[3].now), c3, ins[3].fault, ins[3].answer);
    assert c4.pc == Done(c3.pc.win);
    assert Drive(env, w, call, ins) == Drive(env, w1, c1, ins[1..]);
    assert ins[1..][1..] == ins[2..] && ins[2..][1..] == ins[3..] && ins[3..][1..] == ins[4..];
    assert Drive(env, w1, c1, ins[1..]) == Drive(env, w2, c2, ins[2..]);
    assert Drive(env, w2, c2, ins[2..]) == Drive(env, w3, c3, ins[3..]);
    assert Drive(env, w3, c3, ins[3..]) == Drive(env, w4, c4, ins[4..]);
    IdleDrive(env, w4, c4, ins[4..]);
  }

  /** What the call that meets an expired, unsettled row alone leaves behind: a never-dispatched
      row is run to its end; a possibly dispatched one is handed to a human. */
  ghost predicate SoloEnd(env: Env, call: Call, before: Row, answer: Answer, after: Row, out: Pc)
  {
    if before.status.Reserved? then
      var end := Settle(env, call, 0, answer);
      after.status == end.status && after.result == end.result && out == Done(end.win)
    else
      after.status.ReconcileRequired? && out == Done(Err(Conflict(InProgress)))
  }

  lemma SoloSettles(env: Env, w: World, call: Call, ins: seq<Input>)
    requires Quiet(ins) && |ins| == 7
    requires call.pc.Reserving? && call.key in w.rows && !w.rows[call.key].status.Settled()
    requires Expired(w.rows[call.key].lease, ins[2].now)
    requires ins[3].now < ins[2].now + LeaseSeconds(call.tool) * SECOND
    ensures var (w', call') := Drive(env, w, call, ins);
            && call.key in w'.rows && w'.rows[call.key].status.Settled()
            && SoloEnd(env, call, w.rows[call.key], ins[5].answer, w'.rows[call.key], call'.pc)
  {
    var k := call.key;
    var (w1, c1) := Advance(env, w.(now := ins[0].now), call, ins[0].fault, ins[0].answer);
    assert c1 == call.(pc := Loading) && w1.rows == w.rows;
    var (w2, c2) := Advance(env, w1.(now := ins[1].now), c1, ins[1].fault, ins[1].answer);
    assert c2 == call.(pc := Recovering) && w2.rows == w.rows;
    var (w3, c3) := Advance(env, w2.(now := ins[2].now), c2, ins[2].fault, ins[2].answer);
    assert Drive(env, w, call, ins) == Drive(env, w1, c1, ins[1..]);
    assert ins[1..][1..] == ins[2..] && ins[2..][1..] == ins[3..];
    assert Drive(env, w1, c1, ins[1..]) == Drive(env, w2, c2, ins[2..]);
    assert Drive(env, w2, c2, ins[2..]) == Drive(env, w3, c3, ins[3..]);
    if w.rows[k].status.Reserved? {
      assert c3.pc == Gating(w3.rows[k].token.value);
      ClaimRunsOut(env, w3, c3, ins[3..]);
    } else {
      IdleDrive(env, w3, c3, ins[3..]);
    }
  }

  /** Solo progress. From every reachable state, a fresh call that finds the row's lease expired
      and passes the gate within its own new lease leaves the row settled, on either backend and
      whatever the command answers. */
  lemma SoloProgress(env: Env, acts: seq<Action>, k: JournalKey, owner: string, tool: Tool, ins: seq<Input>)
    requires var s := Run(env, acts);
             && k in s.world.rows && !s.world.rows[k].status.Settled()
             && Quiet(ins) && |ins| == 7
             && Expired(s.world.rows[k].lease, ins[2].now)
             && ins[3].now < ins[2].now + LeaseSeconds(tool) * SECOND
    ensures var s := Run(env, acts);
            var t := Exec(env, s, [Start(k, owner, tool, true)] + Actions(|s.calls|, ins));
            && k in t.world.rows && t.world.rows[k].status.Settled() && |s.calls| < |t.calls|
            && SoloEnd(env, Call(k, owner, tool, Reserving), s.world.rows[k], ins[5].answer,
                       t.world.rows[k], t.calls[|s.calls|].pc)
  {
    var s := Run(env, acts);
    var c := |s.calls|;
    var start := Start(k, owner, tool, true);
    var s' := Apply(env, s, start);
    var more := [start] + Actions(c, ins);
    assert more[1..] == Actions(c, ins);
    assert Exec(env, s, more) == Exec(env, s', Actions(c, ins));
    DriveIsRun(env, s', c, ins);
    SoloSettles(env, s'.world, s'.calls[c], ins);
  }

  /** No row is ever wedged: from every reachable state every row can still reach settlement. */
  lemma NeverWedged(env: Env, acts: seq<Action>, k: JournalKey)
    requires k in Run(env, acts).world.rows
    ensures exists more ::
              var t := Exec(env, Run(env, acts), more);
              k in t.world.rows && t.world.rows[k].status.Settled()
  {
    var s := Run(env, acts);
    if s.world.rows[k].status.Settled() {
      assert Exec(env, s, []) == s;
    } else {
      RunInv(env, acts);
      var tool := Tool("tool", 0, Null);
      var at := Input(s.world.rows[k].lease.value + 1, NoFault, Elapsed);
      var ins := [at, at, at, at, at, at, at];
      SoloProgress(env, acts, k, "owner", tool, ins);
    }
  }
}
