/** One-time realtime tickets, in-memory mode: every call first purges, then acts. The map is
    shared, so calls overlap; what is atomic is the visit to one entry. */
module Tickets {
  import opened Prelude

  type Uuid = nat
  type Time = int

  datatype Ticket = Ticket(user: Uuid, tenant: Uuid, scope: string, expires: Time, consumed: Option<Time>)

  type Shelf = map<Uuid, Ticket>

  predicate Alive(t: Ticket, now: Time) { now < t.expires && t.consumed.None? }

  /** The shelf after a purge that read the clock at `now` has visited the entries `ids`. */
  function Purged(s: Shelf, ids: set<Uuid>, now: Time): Shelf
  {
    map id | id in s && (id !in ids || Alive(s[id], now)) :: s[id]
  }

  predicate Good(t: Ticket, scope: string, now: Time) { t.scope == scope && t.consumed.None? && now < t.expires }

  // ---- atomic steps ----------------------------------------------------------------------

  /** `Sweep` is any part of a purge: its entries are visited one by one while other calls go on,
      all with the one clock reading the purge took. */
  datatype Step =
    | Sweep(ids: set<Uuid>, now: Time)
    | Mint(id: Uuid, ticket: Ticket)
    | Take(id: Uuid, scope: string, now: Time)

  function Do(s: Shelf, step: Step): Shelf
  {
    match step
    case Sweep(ids, now) => Purged(s, ids, now)
    case Mint(id, ticket) => s[id := ticket]
    case Take(id, scope, now) =>
      if id in s && Good(s[id], scope, now) then s[id := s[id].(consumed := Some(now))] else s
  }

  /** What a `consume` returns from its final step. */
  function Answer(s: Shelf, step: Step): Option<(Uuid, Uuid)>
    requires step.Take?
  {
    if step.id in s && Good(s[step.id], step.scope, step.now) then Some((s[step.id].user, s[step.id].tenant)) else None
  }

  class RealtimeTicketStore {
    var tickets: Shelf

    constructor ()
      ensures tickets == map[]
    {
      tickets := map[];
    }

    /** `retain` over the shared map. */
    method PurgeExpired(now: Time)
      modifies this
      ensures tickets == Do(old(tickets), Sweep(old(tickets).Keys, now))
    {
      var todo := tickets.Keys;
      while todo != {}
        invariant todo <= old(tickets).Keys
        invariant tickets == Purged(old(tickets), old(tickets).Keys - todo, now)
        decreases todo
      {
        var id :| id in todo;
        var t := tickets[id];
        if !(t.expires > now && t.consumed.None?) {
          tickets := tickets - {id};
        }
        todo := todo - {id};
      }
    }

    /** The expiry is computed before the purge reads the clock again. */
    method Create(id: Uuid, user: Uuid, tenant: Uuid, scope: string, ttl: nat, first: Time, last: Time)
      modifies this
      ensures var swept := Do(old(tickets), Sweep(old(tickets).Keys, last));
              tickets == Do(swept, Mint(id, Ticket(user, tenant, scope, first + ttl, None)))
    {
      var expires := first + ttl;
      PurgeExpired(last);
      tickets := tickets[id := Ticket(user, tenant, scope, expires, None)];
    }

    method Consume(ticket: Uuid, scope: string, first: Time, last: Time) returns (r: Option<(Uuid, Uuid)>)
      modifies this
      ensures var swept := Do(old(tickets), Sweep(old(tickets).Keys, first));
              var take := Take(ticket, scope, last);
              tickets == Do(swept, take) && r == Answer(swept, take)
    {
      PurgeExpired(first);
      if ticket !in tickets { return None; }
      var stored := tickets[ticket];
      if stored.scope != scope || stored.consumed.Some? || stored.expires <= last { return None; }
      tickets := tickets[ticket := stored.(consumed := Some(last))];
      r := Some((stored.user, stored.tenant));
    }
  }

  // ---- runs --------------------------------------------------------------------------------

  /** The shelf after the steps of any number of overlapping calls, in the order they took effect. */
  function After(steps: seq<Step>): Shelf
  {
    if steps == [] then map[] else Do(After(steps[..|steps| - 1]), steps[|steps| - 1])
  }

  /** A fresh id is drawn for every ticket, and a new ticket is unspent. */
  ghost predicate FreshIds(steps: seq<Step>)
  {
    && (forall i | 0 <= i < |steps| && steps[i].Mint? :: steps[i].ticket.consumed.None?)
    && (forall i, j | 0 <= i < j < |steps| && steps[i].Mint? && steps[j].Mint? :: steps[i].id != steps[j].id)
  }

  ghost predicate MintedIn(steps: seq<Step>, id: Uuid) { exists i :: 0 <= i < |steps| && IsMint(steps[i], id) }

  predicate IsMint(step: Step, id: Uuid) { step.Mint? && step.id == id }

  lemma FreshInit(steps: seq<Step>)
    requires steps != [] && FreshIds(steps)
    ensures FreshIds(steps[..|steps| - 1])
    ensures steps[|steps| - 1].Mint? ==> !MintedIn(steps[..|steps| - 1], steps[|steps| - 1].id)
  {
    var init := steps[..|steps| - 1];
    assert forall i | 0 <= i < |init| :: init[i] == steps[i];
  }

  lemma MintedPush(init: seq<Step>, step: Step, id: Uuid)
    ensures MintedIn(init + [step], id) <==> MintedIn(init, id) || IsMint(step, id)
  {
    var steps := init + [step];
    assert forall i | 0 <= i < |init| :: init[i] == steps[i];
    assert steps[|init|] == step;
    if MintedIn(init, id) {
      var i :| 0 <= i < |init| && IsMint(init[i], id);
      assert IsMint(steps[i], id);
    }
  }

  /** Only minted ids are on the shelf. */
  lemma {:induction false} ShelvedWasMinted(steps: seq<Step>, id: Uuid)
    requires id in After(steps)
    ensures MintedIn(steps, id)
  {
    var init, step := steps[..|steps| - 1], steps[|steps| - 1];
    assert steps == init + [step];
    MintedPush(init, step, id);
    if id in After(init) { ShelvedWasMinted(init, id); }
  }

  // ---- one time ------------------------------------------------------------------------------

  predicate Dead(s: Shelf, id: Uuid) { id !in s || s[id].consumed.Some? }

  /** A dead ticket stays dead, whatever overlaps and whatever the clocks say. */
  lemma {:induction false} DeadStaysDead(steps: seq<Step>, i: nat, j: nat, id: Uuid)
    requires FreshIds(steps) && i <= j <= |steps|
    requires MintedIn(steps[..i], id) && Dead(After(steps[..i]), id)
    ensures Dead(After(steps[..j]), id)
    decreases j
  {
    if i < j {
      DeadStaysDead(steps, i, j - 1, id);
      assert steps[..j][..j - 1] == steps[..j - 1];
      var m :| 0 <= m < |steps[..i]| && IsMint(steps[..i][m], id);
      assert steps[m] == steps[..i][m];
      assert !IsMint(steps[j - 1], id);
    }
  }

  /** A ticket is redeemed at most once: of two answers given for one id in any overlap of any
      number of calls, under any clock, the later is a refusal if the earlier was a success. */
  lemma RedeemedAtMostOnce(steps: seq<Step>, i: nat, j: nat)
    requires FreshIds(steps) && i < j < |steps|
    requires steps[i].Take? && steps[j].Take? && steps[i].id == steps[j].id
    requires Answer(After(steps[..i]), steps[i]).Some?
    ensures Answer(After(steps[..j]), steps[j]).None?
  {
    var id := steps[i].id;
    assert steps[..i + 1][..i] == steps[..i];
    ShelvedWasMinted(steps[..i], id);
    assert steps[..i + 1] == steps[..i] + [steps[i]];
    MintedPush(steps[..i], steps[i], id);
    DeadStaysDead(steps, i + 1, j, id);
  }

  /** The ticket a run minted under an id. */
  function Minted(steps: seq<Step>, id: Uuid): Option<Ticket>
  {
    if steps == [] then None
    else if IsMint(steps[|steps| - 1], id) then Some(steps[|steps| - 1].ticket)
    else Minted(steps[..|steps| - 1], id)
  }

  /** What is on the shelf is as it was minted, up to being spent. */
  lemma {:induction false} ShelvedAsMinted(steps: seq<Step>, id: Uuid)
    requires id in After(steps)
    ensures Minted(steps, id).Some?
    ensures After(steps)[id] == Minted(steps, id).value.(consumed := After(steps)[id].consumed)
  {
    if !IsMint(steps[|steps| - 1], id) { ShelvedAsMinted(steps[..|steps| - 1], id); }
  }

  /** Success is only for a minted ticket, on its own transport, before its expiry, and names the
      user and tenant it was minted for. */
  lemma SuccessIsEarned(steps: seq<Step>, take: Step)
    requires take.Take? && Answer(After(steps), take).Some?
    ensures var t := Minted(steps, take.id);
            && t.Some? && t.value.scope == take.scope && take.now < t.value.expires
            && Answer(After(steps), take) == Some((t.value.user, t.value.tenant))
  {
    ShelvedAsMinted(steps, take.id);
  }

  /** An earlier `consume` of this id was answered with success. */
  ghost predicate Won(steps: seq<Step>, id: Uuid) { exists i :: 0 <= i < |steps| && WonAt(steps, i, id) }

  ghost predicate WonAt(steps: seq<Step>, i: nat, id: Uuid)
    requires i < |steps|
  {
    steps[i].Take? && steps[i].id == id && Answer(After(steps[..i]), steps[i]).Some?
  }

  lemma WonPush(init: seq<Step>, step: Step, id: Uuid)
    ensures Won(init + [step], id) <==>
              Won(init, id) || (step.Take? && step.id == id && Answer(After(init), step).Some?)
  {
    var steps := init + [step];
    assert steps[..|init|] == init;
    forall i: nat | i < |init| ensures WonAt(steps, i, id) <==> WonAt(init, i, id) { assert steps[..i] == init[..i]; }
    if Won(init, id) {
      var i :| 0 <= i < |init| && WonAt(init, i, id);
      assert WonAt(steps, i, id);
    }
    if step.Take? && step.id == id && Answer(After(init), step).Some? { assert WonAt(steps, |init|, id); }
    if Won(steps, id) {
      var i :| 0 <= i < |steps| && WonAt(steps, i, id);
      if i < |init| { assert WonAt(init, i, id); }
    }
  }

  /** A ticket is there and unspent iff it was minted, has not been redeemed, and no purge has
      visited it past its expiry. */
  lemma {:induction false} AliveIff(steps: seq<Step>, id: Uuid)
    requires FreshIds(steps)
    ensures !Dead(After(steps), id) <==> Minted(steps, id).Some? && !Won(steps, id) && !Swept(steps, id)
    ensures Won(steps, id) || Swept(steps, id) ==> MintedIn(steps, id)
  {
    if steps != [] {
      var init, step := steps[..|steps| - 1], steps[|steps| - 1];
      assert steps == init + [step];
      FreshInit(steps);
      AliveIff(init, id);
      WonPush(init, step, id);
      MintedPush(init, step, id);
      MintedMeans(init, id);
      if id in After(init) {
        ShelvedAsMinted(init, id);
        ShelvedWasMinted(init, id);
      }
    }
  }

  /** Success exactly when it is due: the ticket was minted for this transport, has not expired, was
      not redeemed before, and no purge has visited it past its expiry. */
  lemma SuccessIff(steps: seq<Step>, take: Step)
    requires FreshIds(steps) && take.Take?
    ensures Answer(After(steps), take).Some? <==>
              var t := Minted(steps, take.id);
              t.Some? && t.value.scope == take.scope && take.now < t.value.expires
              && !Won(steps, take.id) && !Swept(steps, take.id)
  {
    AliveIff(steps, take.id);
    if take.id in After(steps) { ShelvedAsMinted(steps, take.id); }
  }

  // ---- can a purge be noticed? ------------------------------------------------------------------

  /** The same steps on a store that never purges. */
  function Unpurged(steps: seq<Step>): Shelf
  {
    if steps == [] then map[]
    else
      var s := Unpurged(steps[..|steps| - 1]);
      if steps[|steps| - 1].Sweep? then s else Do(s, steps[|steps| - 1])
  }

  /** Since the ticket was minted, a purge with a clock reading at or past its expiry visited it. */
  predicate Swept(steps: seq<Step>, id: Uuid)
  {
    steps != [] &&
    var init, step := steps[..|steps| - 1], steps[|steps| - 1];
    || Swept(init, id)
    || (step.Sweep? && id in step.ids && Minted(init, id).Some? && Minted(init, id).value.expires <= step.now)
  }

  /** The purging store against the one that never purges, for one id. */
  ghost predicate Agrees(purged: Shelf, kept: Shelf, id: Uuid, swept: bool)
  {
    && (id in purged ==> id in kept && purged[id] == kept[id] && !swept)
    && (id in kept && id !in purged ==> swept || kept[id].consumed.Some?)
  }

  lemma {:induction false} RunsAgree(steps: seq<Step>, id: Uuid)
    requires FreshIds(steps)
    ensures Agrees(After(steps), Unpurged(steps), id, Swept(steps, id))
    ensures id in Unpurged(steps) ==> MintedIn(steps, id)
    ensures Swept(steps, id) ==> MintedIn(steps, id)
  {
    if steps != [] {
      var init, step := steps[..|steps| - 1], steps[|steps| - 1];
      assert steps == init + [step];
      FreshInit(steps);
      RunsAgree(init, id);
      MintedPush(init, step, id);
      MintedMeans(init, id);
      if id in After(init) { ShelvedAsMinted(init, id); }
      StepAgrees(After(init), Unpurged(init), id, Swept(init, id), step, Minted(init, id));
    }
  }

  lemma {:induction false} MintedMeans(steps: seq<Step>, id: Uuid)
    ensures Minted(steps, id).Some? ==> MintedIn(steps, id)
  {
    if steps != [] {
      var init, step := steps[..|steps| - 1], steps[|steps| - 1];
      assert steps == init + [step];
      MintedMeans(init, id);
      MintedPush(init, step, id);
    }
  }

  lemma StepAgrees(purged: Shelf, kept: Shelf, id: Uuid, swept: bool, step: Step, minted: Option<Ticket>)
    requires Agrees(purged, kept, id, swept)
    requires step.Mint? && step.id == id ==> id !in kept && !swept
    requires id in purged ==> minted.Some? && purged[id].expires == minted.value.expires
    ensures Agrees(Do(purged, step), if step.Sweep? then kept else Do(kept, step), id,
                   swept || (step.Sweep? && id in step.ids && minted.Some? && minted.value.expires <= step.now))
  {
  }

  /** Exactly when a purge shows. Under any clock and any overlap a `consume` is answered as by a
      store that never purges, unless that store would say yes and a purge with a clock reading
      at or past the ticket's expiry has visited the ticket. */
  lemma PurgeShowsExactly(before: seq<Step>, take: Step)
    requires FreshIds(before) && take.Take?
    ensures (Answer(After(before), take) == Answer(Unpurged(before), take))
              <==> !(Answer(Unpurged(before), take).Some? && Swept(before, take.id))
  {
    RunsAgree(before, take.id);
  }

  /** No purge took its clock reading later than a redemption after it takes its own. A clock that
      never runs back gives this, since a purge reads it before it visits anything. */
  ghost predicate SweepsAreEarlier(before: seq<Step>, now: Time)
  {
    forall i | 0 <= i < |before| && before[i].Sweep? :: before[i].now <= now
  }

  lemma {:induction false} SweptHadExpired(steps: seq<Step>, id: Uuid, now: Time)
    requires FreshIds(steps) && SweepsAreEarlier(steps, now) && Swept(steps, id)
    ensures Minted(steps, id).Some? && Minted(steps, id).value.expires <= now
  {
    var init, step := steps[..|steps| - 1], steps[|steps| - 1];
    assert steps == init + [step];
    FreshInit(steps);
    assert forall i | 0 <= i < |init| :: init[i] == steps[i];
    if Swept(init, id) { SweptHadExpired(init, id, now); }
    MintedMeans(init, id);
  }

  lemma {:induction false} KeptAsMinted(steps: seq<Step>, id: Uuid)
    requires id in Unpurged(steps)
    ensures Minted(steps, id).Some? && Unpurged(steps)[id].expires == Minted(steps, id).value.expires
  {
    if !IsMint(steps[|steps| - 1], id) { KeptAsMinted(steps[..|steps| - 1], id); }
  }

  /** With a clock that does not run back no purge can be noticed. */
  lemma PurgeIsInvisible(before: seq<Step>, take: Step)
    requires FreshIds(before) && take.Take? && SweepsAreEarlier(before, take.now)
    ensures Answer(After(before), take) == Answer(Unpurged(before), take)
  {
    PurgeShowsExactly(before, take);
    if Swept(before, take.id) {
      SweptHadExpired(before, take.id, take.now);
      if take.id in Unpurged(before) { KeptAsMinted(before, take.id); }
    }
  }

  /** It takes a clock that runs back: a ticket good until 10 is purged by a call at 20, and a
      call whose clock says 5 is then refused. */
  lemma ClockMustNotRunBack()
    ensures var before := [Mint(1, Ticket(7, 8, "ws", 10, None)), Sweep({1}, 20)];
            var take := Take(1, "ws", 5);
            Answer(Unpurged(before), take).Some? && Answer(After(before), take).None?
  {
    var mint, sweep := Mint(1, Ticket(7, 8, "ws", 10, None)), Sweep({1}, 20);
    var before := [mint, sweep];
    assert before[..1] == [mint] && [mint][..0] == [];
    assert After([mint]) == Do(map[], mint);
    assert Unpurged([mint]) == Do(map[], mint);
    assert After(before) == Do(After([mint]), sweep);
    assert Unpurged(before) == Unpurged([mint]);
  }
}
