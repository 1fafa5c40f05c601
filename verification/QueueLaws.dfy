/** What each operation of the queue owes to the items: turns, dues, deadlines, and what one undoes of another. */
module QueueLaws {
  import opened Options
  import opened Queue
  import opened QueueRuns
  import opened QueueStore

  // ---- the claim ----------------------------------------------------------------------------------------

  /** An item that a claim at this time may take: queued, due, of an active tenant, and of no layer being erased. */
  ghost predicate Due(t: Table, now: Time, id: Id) {
    && id in t.rows && t.rows[id].status == Queued && t.rows[id].nextAttempt <= now
    && t.rows[id].tenant in t.tenants && t.tenants[t.rows[id].tenant].active
    && forall layer :: layer in t.rows[id].acl ==> (t.rows[id].tenant, layer) !in t.closed
  }

  /** Item `a` is not served after `b`: its tenant was served no later, never being the earliest; and where both were
      served at once, as where they are one, it was made earlier, or is first by its id. */
  ghost predicate NotAfter(t: Table, a: Id, b: Id)
    requires a in t.rows && b in t.rows && t.rows[a].tenant in t.tenants && t.rows[b].tenant in t.tenants
  {
    var u, v := t.tenants[t.rows[a].tenant].lastClaimed, t.tenants[t.rows[b].tenant].lastClaimed;
    && (u.Some? ==> v.Some? && u.value <= v.value)
    && (u == v ==> t.rows[a].created < t.rows[b].created || (t.rows[a].created == t.rows[b].created && a < b))
  }

  /** A claim takes a due item no one has locked, ahead of every other, oldest first within a tenant; and it takes
      nothing only when there is none. The item is then processed under a new lease, once more attempted, its start
      and deadline set if they were not; its tenant has been served; and nothing else changes. */
  lemma ClaimTakes(t: Table, e: Event)
    requires Enabled(t, e) && e.action.Claim?
    ensures var locked, picked, u := e.action.locked, e.action.picked, Step(t, e);
            if picked.None? then
              u == t.(clock := e.now) && forall id :: Due(t, e.now, id) ==> id in locked
            else
              var p, row := picked.value, t.rows[picked.value];
              && Due(t, e.now, p) && p !in locked
              && (forall id :: Due(t, e.now, id) && id !in locked && id != p ==> NotAfter(t, p, id))
              && u.rows.Keys == t.rows.Keys && (forall id :: id in t.rows && id != p ==> u.rows[id] == t.rows[id])
              && u.rows[p] == row.(status := Processing, attempts := row.attempts + 1, lease := Some(e.now),
                                   started := u.rows[p].started, budget := u.rows[p].budget)
              && u.rows[p].started == Some(if row.started.Some? then row.started.value else e.now)
              && u.rows[p].budget == Some(if row.budget.Some? then row.budget.value else e.now + e.action.budget)
              && u.tenants == t.tenants[row.tenant := t.tenants[row.tenant].(lastClaimed := Some(e.now))]
  {
    forall id ensures Due(t, e.now, id) <==> Claimable(t, e.now, id) {}
  }

  /** A claim given back leaves the item as it was before it, but due at once, if it had not been started before. */
  lemma ReleaseUndoesClaim(t: Table, e: Event, release: Event)
    requires Enabled(t, e) && e.action.Claim? && e.action.picked.Some? && e.now < release.now
    requires release.action == Release(e.action.picked.value, e.now)
    ensures var p := e.action.picked.value;
            var row := t.rows[p];
            && Enabled(Step(t, e), release)
            && (row.started.None? && row.budget.None? && row.lease.None? ==>
                  Step(Step(t, e), release).rows == t.rows[p := row.(nextAttempt := release.now)])
  {
    var p := e.action.picked.value;
    if t.rows[p].started.None? && t.rows[p].budget.None? && t.rows[p].lease.None? {
      assert Step(Step(t, e), release).rows[p] == t.rows[p].(nextAttempt := release.now);
    }
  }

  /** A failed item retried starts over: it is as a new item with its request, but for when it was made. */
  lemma RetryStartsOver(t: Table, e: Event)
    requires Enabled(t, e) && e.action.Retry? && e.action.id in t.rows && t.rows[e.action.id].status == Failed
    ensures var row := t.rows[e.action.id];
            Step(t, e).rows == t.rows[e.action.id := NewRow(e.now, row.tenant, row.submitter, row.key, row.acl,
                                                            row.request).(created := row.created)]
  {
  }

  /** A new item may be claimed from then on, when its tenant is active and its layers are open. */
  lemma NewIsDue(t: Table, e: Event, now: Time)
    requires Enabled(t, e) && e.action.Enqueue? && e.action.answer == Created && e.now < now
    requires e.action.tenant in t.tenants && t.tenants[e.action.tenant].active
    requires forall layer :: layer in e.action.acl ==> (e.action.tenant, layer) !in t.closed
    ensures Due(Step(t, e), now, e.action.id)
    ensures var row := Step(t, e).rows[e.action.id];
            && row.request == e.action.request && row.acl == e.action.acl && row.created == e.now
            && row.attempts == 0 && row.started.None? && row.budget.None? && row.lease.None?
  {
  }

  /** A lease that has run out for longer than the timeout, and no other, is taken back: the item is due at once with
      what it had, unless it has been attempted three times, and then has failed. */
  lemma ExpiryGivesBack(t: Table, e: Event, id: Id)
    requires Enabled(t, e) && e.action.Expire? && id in t.rows
    ensures var row, after := t.rows[id], Step(t, e).rows[id];
            if id !in e.action.ids then after == row
            else
              && row.status == Processing && row.lease.Some? && row.lease.value + e.action.timeout < e.now
              && if row.attempts <= 2 then after == row.(status := Queued, lease := None, nextAttempt := e.now)
                 else after == row.(status := Failed, lease := None, finished := Some(e.now))
  {
  }

  /** In a reachable table, expired leases are taken back in the order the items were first started, and at once by
      their ids: no lease is left for one that started later, and as many are taken as the batch holds. */
  lemma ExpiryInOrder(run: seq<Table>, events: seq<Event>, i: nat, now: Time, timeout: nat, batch: nat, locked: set<Id>,
                      ids: set<Id>)
    requires IsRun(run, events) && i < |run| && FirstExpired(run[i], now, timeout, batch, locked, ids)
    ensures forall id: Id, left: Id ::
              id in ids && left !in ids && left !in locked && LeaseExpired(run[i], now, timeout, left) ==>
              var a, b := run[i].rows[id].started, run[i].rows[left].started;
              |ids| == batch && a.Some? && b.Some? && (a.value < b.value || (a.value == b.value && id < left))
  {
    ReachableTables(run, events, i);
    var t := run[i];
    forall id: Id, left: Id | id in ids && left !in ids && left !in locked && LeaseExpired(t, now, timeout, left)
      ensures var a, b := t.rows[id].started, t.rows[left].started;
              |ids| == batch && a.Some? && b.Some? && (a.value < b.value || (a.value == b.value && id < left))
    {
      assert RowOk(t.rows[id], t.clock) && RowOk(t.rows[left], t.clock);
      assert StartedBefore(t, id, left);
    }
  }

  /** A failure that may be retried, of one of the first two attempts, gives the item back to be claimed after ten
      seconds, with a deadline of its own only if that is asked; any other ends it. */
  lemma FailureGivesBack(t: Table, e: Event)
    requires Enabled(t, e) && e.action.Fail? && Holds(t, e.action.token)
    ensures var id := e.action.token.id;
            var row, after := t.rows[id], Step(t, e).rows[id];
            if e.action.retryable && row.attempts < 2
            then && after.status == Queued && after.nextAttempt == e.now + 10 * TICKS_PER_SECOND
                 && after.budget == (if e.action.freshBudget then None else row.budget)
                 && after == row.(status := Queued, lease := None, finished := None, nextAttempt := after.nextAttempt,
                                  budget := after.budget)
            else after == row.(status := Failed, lease := None, finished := Some(e.now))
  {
  }

  // ---- over whole runs ------------------------------------------------------------------------------------

  lemma WaitsItsTurn(t: Table, e: Event, id: Id)
    requires Enabled(t, e) && id in t.rows && t.rows[id].status == Queued
    ensures id in Step(t, e).rows
    ensures Step(t, e).rows[id] != t.rows[id] ==>
              e.action.Claim? && e.action.picked == Some(id) && t.rows[id].nextAttempt <= e.now
  {
  }

  /** In any run: an item given back after a failure is as the failure left it until a claim, and that claim comes no
      sooner than ten seconds after. */
  lemma {:induction false} RetryWaits(run: seq<Table>, events: seq<Event>, i: nat, j: nat)
    requires IsRun(run, events) && i < j < |run| && events[i].action.Fail? && Holds(run[i], events[i].action.token)
    requires events[i].action.retryable && run[i].rows[events[i].action.token.id].attempts < 2
    ensures var id, from := events[i].action.token.id, events[i].now + 10 * TICKS_PER_SECOND;
            && id in run[i + 1].rows && id in run[j].rows
            && (run[j].rows[id] == run[i + 1].rows[id]
                || exists k :: i < k < j && events[k].action.Claim? && events[k].action.picked == Some(id)
                               && from <= events[k].now)
    decreases j - i
  {
    hide Step, Enabled;
    var id := events[i].action.token.id;
    assert Enabled(run[i], events[i]) && run[i + 1] == Step(run[i], events[i]);
    FailureGivesBack(run[i], events[i]);
    ItemStays(run[i], events[i], id);
    if i + 1 < j {
      RetryWaits(run, events, i, j - 1);
      var e := events[j - 1];
      ItemStays(run[j - 1], e, id);
      if run[j - 1].rows[id] == run[i + 1].rows[id] { WaitsItsTurn(run[j - 1], e, id); }
    }
  }

  lemma ItemStays(t: Table, e: Event, id: Id)
    requires Enabled(t, e) && id in t.rows
    ensures id in Step(t, e).rows
  {
  }

  /** Whether an event takes an item's start and deadline back: released, retried by an administrator, or failed with
      a new deadline asked for. */
  predicate Resets(t: Table, e: Event, id: Id) {
    match e.action
    case Release(other, _) => other == id
    case Retry(other) => other == id
    case Fail(token, _, freshBudget) => token.id == id && freshBudget
    case _ => false
  }

  lemma StepKeepsDeadline(t: Table, e: Event, id: Id)
    requires Enabled(t, e) && id in t.rows && t.rows[id].budget.Some? && !Resets(t, e, id)
    ensures id in Step(t, e).rows && Step(t, e).rows[id].budget == t.rows[id].budget
  {
  }

  /** In any run: the deadline an item got with its first claim stands through expiry, failures and later claims, until
      an event that takes it back. */
  lemma {:induction false} DeadlineStands(run: seq<Table>, events: seq<Event>, id: Id, i: nat, j: nat)
    requires IsRun(run, events) && i <= j < |run| && id in run[i].rows && run[i].rows[id].budget.Some?
    ensures id in run[j].rows
    ensures run[j].rows[id].budget == run[i].rows[id].budget || exists k :: i <= k < j && Resets(run[k], events[k], id)
    decreases j - i
  {
    hide Step, Enabled, Resets;
    if i < j {
      DeadlineStands(run, events, id, i, j - 1);
      var e := events[j - 1];
      ItemStays(run[j - 1], e, id);
      if run[j - 1].rows[id].budget == run[i].rows[id].budget && !Resets(run[j - 1], e, id) {
        StepKeepsDeadline(run[j - 1], e, id);
      }
    }
  }
}
