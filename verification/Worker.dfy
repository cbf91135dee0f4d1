/** One chunk of the worker's queue, which can span several tenants (app/services/embedding/pipeline.py).
    `Pipeline.EmbeddingPipeline` models what happens inside one tenant. */
module Worker {
  import opened Items
  import opened VectorStore
  import opened Embedding
  import opened Batches

  type TenantId = string

  /** A tenant's part of the items table, its namespace and its configuration. */
  datatype Space = Space(rows: Table, vectors: Namespace, config: Config)

  type Spaces = map<TenantId, Space>

  /** The claimed items of one tenant. */
  datatype Group = Group(tenant: TenantId, ids: seq<Id>)

  ghost predicate Held(s: Space, ids: seq<Id>) {
    DistinctIn(s.rows, ids) && forall id :: id in ids ==> s.rows[id].status == PROCESSING
  }

  /** Each tenant occurs once; one deleted since its items were claimed has no space left. */
  ghost predicate ValidGroups(spaces: Spaces, groups: seq<Group>) {
    && (forall i, j :: 0 <= i < j < |groups| ==> groups[i].tenant != groups[j].tenant)
    && forall i :: 0 <= i < |groups| && groups[i].tenant in spaces ==> Held(spaces[groups[i].tenant], groups[i].ids)
  }

  /** No item is left claimed. */
  predicate AtRest(rows: Table, ids: seq<Id>, raised: bool) {
    forall id :: id in ids ==> id in rows && rows[id].status in (if raised then {PENDING, FAILED} else {DONE, FAILED})
  }

  /** `process_items` ran on the group: every item is settled, or back in the queue when it raised. */
  ghost predicate Settled(s: Space, after: Space, ids: seq<Id>, up: Upstream, now: Time, raised: bool) {
    && Held(s, ids) && ValidUpstream(up)
    && Stored(after.rows, after.vectors, raised) == Process(s.rows, s.vectors, ids, s.config, up, now)
    && after.config == s.config && AtRest(after.rows, ids, raised)
  }

  /** The group was not reached: its items wait again, and nothing else changed. */
  ghost predicate Requeued(s: Space, after: Space, ids: seq<Id>, now: Time) {
    && after == s.(rows := after.rows) && after.rows.Keys == s.rows.Keys
    && forall id :: id in s.rows ==>
         after.rows[id] == if id in ids then s.rows[id].(status := PENDING, updatedAt := now) else s.rows[id]
  }

  /** The tenant has none of the first `i` groups. */
  ghost predicate Outside(groups: seq<Group>, i: nat, t: TenantId) {
    forall j :: 0 <= j < i && j < |groups| ==> groups[j].tenant != t
  }

  /** Only the first `i` groups' tenants have changed. */
  ghost predicate Untouched(before: Spaces, after: Spaces, groups: seq<Group>, i: nat) {
    after.Keys == before.Keys && forall t :: t in before && Outside(groups, i, t) ==> after[t] == before[t]
  }

  /** The first `i` groups are settled and the rest is as it was. */
  ghost predicate Reached(before: Spaces, after: Spaces, groups: seq<Group>, i: nat, ups: nat -> Upstream, now: Time) {
    && i <= |groups| && Untouched(before, after, groups, i)
    && forall j :: 0 <= j < i && groups[j].tenant in before ==>
         Settled(before[groups[j].tenant], after[groups[j].tenant], groups[j].ids, ups(j), now, false)
  }

  /** Group `stop` failed: those before are settled, those after requeued. */
  ghost predicate CutShort(before: Spaces, after: Spaces, groups: seq<Group>, stop: nat, ups: nat -> Upstream,
                           now: Time)
  {
    && stop < |groups| && Untouched(before, after, groups, |groups|)
    && (forall j :: 0 <= j <= stop && groups[j].tenant in before ==>
          Settled(before[groups[j].tenant], after[groups[j].tenant], groups[j].ids, ups(j), now, j == stop))
    && forall j :: stop < j < |groups| && groups[j].tenant in before ==>
         Requeued(before[groups[j].tenant], after[groups[j].tenant], groups[j].ids, now)
  }

  /** The claimed items of a tenant. */
  function IdsOf(groups: seq<Group>, t: TenantId): set<Id> {
    set g, id | g in groups && g.tenant == t && id in g.ids :: id
  }

  /** `release_items`, on every tenant at once. */
  function ReleasedAll(spaces: Spaces, groups: seq<Group>, now: Time): Spaces {
    map t | t in spaces :: spaces[t].(rows := Released(spaces[t].rows, IdsOf(groups, t), now))
  }

  /** A group's items are handed back in its tenant's table alone. */
  lemma ReleasedGroup(spaces: Spaces, groups: seq<Group>, j: nat, now: Time)
    requires j < |groups| && forall i, k :: 0 <= i < k < |groups| ==> groups[i].tenant != groups[k].tenant
    requires groups[j].tenant in spaces
    ensures var s := spaces[groups[j].tenant];
            ReleasedAll(spaces, groups, now)[groups[j].tenant]
            == s.(rows := Released(s.rows, SetOf(groups[j].ids), now))
  {
    assert groups[j] in groups;
    assert IdsOf(groups, groups[j].tenant) == SetOf(groups[j].ids);
  }

  lemma NotHandedBack(rows: Table, ids: seq<Id>, raised: bool, now: Time)
    requires AtRest(rows, ids, raised)
    ensures Released(rows, SetOf(ids), now) == rows
  {
    NothingToRelease(rows, ids, now);
  }

  lemma OutsideStays(s: Space, groups: seq<Group>, t: TenantId, now: Time)
    requires Outside(groups, |groups|, t)
    ensures s.(rows := Released(s.rows, IdsOf(groups, t), now)) == s
  {
    assert IdsOf(groups, t) == {};
    assert Released(s.rows, {}, now) == s.rows;
  }

  /** Group `i` had its turn, whatever became of it. */
  ghost predicate Turned(before: Spaces, turned: Spaces, groups: seq<Group>, i: nat, ups: nat -> Upstream, now: Time,
                         raised: bool)
  {
    && i < |groups| && Untouched(before, turned, groups, i + 1)
    && forall j :: 0 <= j <= i && groups[j].tenant in before ==>
         Settled(before[groups[j].tenant], turned[groups[j].tenant], groups[j].ids, ups(j), now, raised && j == i)
  }

  lemma TouchesOneMore(before: Spaces, reached: Spaces, turned: Spaces, groups: seq<Group>, i: nat)
    requires i < |groups| && Untouched(before, reached, groups, i) && turned.Keys == before.Keys
    requires forall t :: t in before && t != groups[i].tenant ==> turned[t] == reached[t]
    ensures Untouched(before, turned, groups, i + 1)
  {
    forall t | t in before && Outside(groups, i + 1, t) ensures turned[t] == before[t] {
      assert Outside(groups, i, t);
    }
  }

  lemma NextIsUntouched(before: Spaces, reached: Spaces, groups: seq<Group>, i: nat)
    requires ValidGroups(before, groups) && i < |groups| && groups[i].tenant in before
    requires Untouched(before, reached, groups, i)
    ensures reached[groups[i].tenant] == before[groups[i].tenant] && Held(before[groups[i].tenant], groups[i].ids)
  {
    assert Outside(groups, i, groups[i].tenant);
  }

  lemma ProcessIsSettled(s: Space, ids: seq<Id>, up: Upstream, now: Time)
    requires Held(s, ids) && ValidUpstream(up)
    ensures var r := Process(s.rows, s.vectors, ids, s.config, up, now);
            Settled(s, s.(rows := r.rows, vectors := r.vectors), ids, up, now, r.raised)
  {
    ProcessSettles(s.rows, s.vectors, ids, s.config, up, now);
  }

  /** Handing back everything claimed touches only what the failed turn had not reached. */
  lemma CutIs(before: Spaces, turned: Spaces, groups: seq<Group>, i: nat, ups: nat -> Upstream, now: Time)
    requires ValidGroups(before, groups) && Turned(before, turned, groups, i, ups, now, true)
    ensures CutShort(before, ReleasedAll(turned, groups, now), groups, i, ups, now)
  {
    var after := ReleasedAll(turned, groups, now);
    forall j | 0 <= j <= i && groups[j].tenant in before
      ensures after[groups[j].tenant] == turned[groups[j].tenant]
    {
      ReleasedGroup(turned, groups, j, now);
      NotHandedBack(turned[groups[j].tenant].rows, groups[j].ids, j == i, now);
    }
    forall j | i < j < |groups| && groups[j].tenant in before
      ensures Requeued(before[groups[j].tenant], after[groups[j].tenant], groups[j].ids, now)
    {
      ReleasedGroup(turned, groups, j, now);
      assert Outside(groups, i + 1, groups[j].tenant);
    }
    forall t | t in before && Outside(groups, |groups|, t)
      ensures after[t] == before[t]
    {
      assert Outside(groups, i + 1, t);
      OutsideStays(before[t], groups, t, now);
    }
  }

  /** What group `i`'s turn leaves, the hand-back included. */
  lemma TurnIs(before: Spaces, reached: Spaces, groups: seq<Group>, i: nat, ups: nat -> Upstream, now: Time,
               after: Space, raised: bool)
    requires ValidGroups(before, groups) && i < |groups| && groups[i].tenant in before
    requires Reached(before, reached, groups, i, ups, now)
    requires Settled(before[groups[i].tenant], after, groups[i].ids, ups(i), now, raised)
    ensures var turned := reached[groups[i].tenant := after];
            if raised then CutShort(before, ReleasedAll(turned, groups, now), groups, i, ups, now)
            else Reached(before, turned, groups, i + 1, ups, now)
  {
    var turned := reached[groups[i].tenant := after];
    TouchesOneMore(before, reached, turned, groups, i);
    assert Turned(before, turned, groups, i, ups, now, raised);
    if raised { CutIs(before, turned, groups, i, ups, now); }
  }

  lemma GoneIsSkipped(before: Spaces, reached: Spaces, groups: seq<Group>, i: nat, ups: nat -> Upstream, now: Time)
    requires i < |groups| && groups[i].tenant !in before && Reached(before, reached, groups, i, ups, now)
    ensures Reached(before, reached, groups, i + 1, ups, now)
  {
    TouchesOneMore(before, reached, reached, groups, i);
  }

  class Worker {
    var spaces: Spaces

    /** The groups in turn; when one fails the whole claim is handed back and the failure raised again. */
    method ProcessGroups(groups: seq<Group>, ups: nat -> Upstream, now: Time) returns (raised: bool, stop: nat)
      requires ValidGroups(spaces, groups) && forall k :: ValidUpstream(ups(k))
      modifies this
      ensures if raised then CutShort(old(spaces), spaces, groups, stop, ups, now)
              else Reached(old(spaces), spaces, groups, |groups|, ups, now)
    {
      for i := 0 to |groups|
        invariant Reached(old(spaces), spaces, groups, i, ups, now)
      {
        var t := groups[i].tenant;
        if t in spaces {
          NextIsUntouched(old(spaces), spaces, groups, i);
          var s := spaces[t];
          ProcessIsSettled(s, groups[i].ids, ups(i), now);
          var r := Process(s.rows, s.vectors, groups[i].ids, s.config, ups(i), now);
          var after := s.(rows := r.rows, vectors := r.vectors);
          TurnIs(old(spaces), spaces, groups, i, ups, now, after, r.raised);
          spaces := spaces[t := after];
          if r.raised {
            spaces := ReleasedAll(spaces, groups, now);
            return true, i;
          }
        } else {
          GoneIsSkipped(old(spaces), spaces, groups, i, ups, now);
        }
      }
      return false, |groups|;
    }
  }
}
