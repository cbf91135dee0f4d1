/** Any number of workers claiming, finishing and releasing items at once
    (app/services/embedding/pipeline.py, app/services/item_service.py): each database statement is one
    step. A claim is a SELECT of candidates, then an UPDATE that only takes those still PENDING. */
module Claims {
  import opened Items

  type Worker = nat

  /** `selected`: the candidates each worker has read and not yet tried to take. */
  datatype State = State(rows: Table, selected: map<Worker, set<Id>>)

  datatype Move =
    | Store(id: Id, row: Row)                           // upload or re-upload, to PENDING or PROCESSING
    | Requeue(ids: set<Id>, now: Time)                  // rebuild: whatever they were, PENDING
    | Select(worker: Worker, candidates: set<Id>)
    | Take(worker: Worker, now: Time)
    | Release(ids: set<Id>, now: Time)
    | ReleaseStale(cutoff: Time, now: Time)
    | Finish(id: Id, row: Row)                          // a finisher writes back, whatever happened since
    | Delete(id: Id)

  ghost predicate Possible(s: State, m: Move) {
    match m
    case Store(_, row) => row.status == PENDING || row.status == PROCESSING
    case Select(_, candidates) => forall id :: id in candidates ==> Has(s.rows, id, PENDING)
    case Take(worker, _) => worker in s.selected
    case Finish(id, row) => id in s.rows
    case _ => true
  }

  function Next(s: State, m: Move): State
    requires Possible(s, m)
  {
    match m
    case Store(id, row) => s.(rows := s.rows[id := row])
    case Requeue(ids, now) =>
      s.(rows := map id | id in s.rows ::
                 if id in ids then s.rows[id].(status := PENDING, updatedAt := now) else s.rows[id])
    case Select(worker, candidates) => s.(selected := s.selected[worker := candidates])
    case Take(worker, now) => State(AfterClaim(s.rows, s.selected[worker], now), s.selected - {worker})
    case Release(ids, now) => s.(rows := Released(s.rows, ids, now))
    case ReleaseStale(cutoff, now) => s.(rows := Released(s.rows, Stale(s.rows, cutoff), now))
    case Finish(id, row) => s.(rows := s.rows[id := row])
    case Delete(id) => s.(rows := s.rows - {id})
  }

  /** What a step hands out to its worker. */
  function HandedOut(s: State, m: Move): set<Id>
    requires Possible(s, m)
  {
    if m.Take? then Claimed(s.rows, s.selected[m.worker]) else {}
  }

  ghost predicate IsRun(states: seq<State>, moves: seq<Move>) {
    && |states| == |moves| + 1
    && forall i :: 0 <= i < |moves| ==> Possible(states[i], moves[i]) && states[i + 1] == Next(states[i], moves[i])
  }

  /** The step from `s` to `s'` brought the item into PENDING. */
  predicate Enters(s: State, s': State, id: Id) {
    Has(s'.rows, id, PENDING) && !Has(s.rows, id, PENDING)
  }

  function Pending(s: State, id: Id): nat {
    if Has(s.rows, id, PENDING) then 1 else 0
  }

  ghost function TimesHandedOut(states: seq<State>, moves: seq<Move>, id: Id): nat
    requires IsRun(states, moves)
    decreases |moves|
  {
    if moves == [] then 0
    else
      var last := |moves| - 1;
      TimesHandedOut(states[..last + 1], moves[..last], id)
      + if id in HandedOut(states[last], moves[last]) then 1 else 0
  }

  ghost function TimesEntered(states: seq<State>, id: Id): nat
    requires states != []
    decreases |states|
  {
    if |states| == 1 then Pending(states[0], id)
    else
      var last := |states| - 1;
      TimesEntered(states[..last], id) + if Enters(states[last - 1], states[last], id) then 1 else 0
  }

  /** The step took the item out of PENDING without handing it out. */
  predicate Withdraws(s: State, m: Move, id: Id)
    requires Possible(s, m)
  {
    Has(s.rows, id, PENDING) && !Has(Next(s, m).rows, id, PENDING) && id !in HandedOut(s, m)
  }

  ghost function TimesWithdrawn(states: seq<State>, moves: seq<Move>, id: Id): nat
    requires IsRun(states, moves)
    decreases |moves|
  {
    if moves == [] then 0
    else
      var last := |moves| - 1;
      TimesWithdrawn(states[..last + 1], moves[..last], id) + if Withdraws(states[last], moves[last], id) then 1 else 0
  }

  /** In every interleaving, each time an item entered PENDING (being PENDING at the start counts as one) it was
      handed out once, or withdrawn, or it is PENDING still. */
  lemma {:induction false} HandedOutOncePerEntry(states: seq<State>, moves: seq<Move>, id: Id)
    requires IsRun(states, moves)
    ensures TimesHandedOut(states, moves, id) + TimesWithdrawn(states, moves, id) + Pending(states[|moves|], id)
         == TimesEntered(states, id)
    decreases |moves|
  {
    if moves != [] {
      var last := |moves| - 1;
      var front := states[..last + 1];
      assert forall i :: 0 <= i <= last ==> front[i] == states[i];
      HandedOutOncePerEntry(front, moves[..last], id);
    }
  }

  /** Only an upload that embeds at once, a finisher that settles the item, or its deletion withdraws it. */
  lemma WithdrawnExactly(s: State, m: Move, id: Id)
    requires Possible(s, m)
    ensures Withdraws(s, m, id) <==>
              && Has(s.rows, id, PENDING)
              && (|| (m.Store? && m.id == id && m.row.status == PROCESSING)
                  || (m.Finish? && m.id == id && m.row.status != PENDING)
                  || (m.Delete? && m.id == id))
  {
  }

  /** A claim hands out exactly those it had selected that are still PENDING, whatever the others did meanwhile, and
      they become PROCESSING. */
  lemma ClaimTakesStillPending(states: seq<State>, moves: seq<Move>, i: nat, j: nat)
    requires IsRun(states, moves) && i < j < |moves| && moves[i].Select? && moves[j].Take?
    requires moves[i].worker == moves[j].worker
    requires forall t :: i < t < j && (moves[t].Select? || moves[t].Take?) ==> moves[t].worker != moves[i].worker
    ensures forall id :: id in HandedOut(states[j], moves[j]) <==>
              id in moves[i].candidates && Has(states[j].rows, id, PENDING)
    ensures forall id :: id in HandedOut(states[j], moves[j]) ==>
              id in states[j + 1].rows
              && states[j + 1].rows[id] == states[j].rows[id].(status := PROCESSING, updatedAt := moves[j].now)
  {
    var w, t := moves[i].worker, i + 1;
    while t < j
      invariant i < t <= j && w in states[t].selected && states[t].selected[w] == moves[i].candidates
    {
      t := t + 1;
    }
  }

  /** Between two claims that both return an item, the item entered PENDING again. */
  lemma ReclaimNeedsEntry(states: seq<State>, moves: seq<Move>, i: nat, j: nat, id: Id)
    requires IsRun(states, moves) && i < j < |moves|
    requires id in HandedOut(states[i], moves[i]) && id in HandedOut(states[j], moves[j])
    ensures exists t :: i < t < j && Enters(states[t], states[t + 1], id)
  {
    var t := i + 1;
    while !Has(states[t + 1].rows, id, PENDING)
      invariant i < t < j && !Has(states[t].rows, id, PENDING)
      decreases j - t
    {
      t := t + 1;
    }
    assert Enters(states[t], states[t + 1], id);
  }

  /** Exactly these steps bring an item into PENDING: storing or requeueing it, releasing it, or a finisher handing
      it back. */
  lemma EntryNeedsRelease(s: State, m: Move, id: Id)
    requires Possible(s, m)
    ensures Enters(s, Next(s, m), id) <==>
              && !Has(s.rows, id, PENDING)
              && (|| (m.Store? && m.id == id && m.row.status == PENDING)
                  || (m.Requeue? && id in m.ids && id in s.rows)
                  || (m.Release? && id in m.ids && Has(s.rows, id, PROCESSING))
                  || (m.ReleaseStale? && Has(s.rows, id, PROCESSING) && s.rows[id].updatedAt < m.cutoff)
                  || (m.Finish? && m.id == id && m.row.status == PENDING))
  {
  }

  /** Claims with nothing released between them return disjoint sets, whatever the workers had
      selected. */
  lemma ClaimsAreDisjoint(states: seq<State>, moves: seq<Move>, i: nat, j: nat)
    requires IsRun(states, moves) && i < j < |moves|
    requires forall t :: i < t < j ==>
      !(moves[t].Store? && moves[t].row.status == PENDING) && !moves[t].Requeue? && !moves[t].Release?
      && !moves[t].ReleaseStale? && !(moves[t].Finish? && moves[t].row.status == PENDING)
    ensures HandedOut(states[i], moves[i]) !! HandedOut(states[j], moves[j])
  {
    forall id | id in HandedOut(states[i], moves[i]) ensures id !in HandedOut(states[j], moves[j]) {
      if id in HandedOut(states[j], moves[j]) {
        ReclaimNeedsEntry(states, moves, i, j, id);
        var t :| i < t < j && Enters(states[t], states[t + 1], id);
        EntryNeedsRelease(states[t], moves[t], id);
        assert false;
      }
    }
  }
}
