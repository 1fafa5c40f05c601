/** The queue's operations, each updating the shared table in place; every one is a step of the protocol. */
module QueueStore {
  import opened Options
  import opened Queue

  function AtLeast(low: int, x: int): int { if x < low then low else x }

  /** The order expired leases are reclaimed in: the item first started, then the id. */
  predicate StartedBefore(t: Table, a: Id, b: Id)
    requires a in t.rows && b in t.rows
  {
    var x, y := t.rows[a].started, t.rows[b].started;
    Earlier(x, y) || (x == y && a < b)
  }

  /** The first `batch` expired items no other transaction has locked. */
  ghost predicate FirstExpired(t: Table, now: Time, timeout: nat, batch: nat, locked: set<Id>, ids: set<Id>) {
    && |ids| <= batch
    && (forall id :: id in ids ==> LeaseExpired(t, now, timeout, id) && id !in locked)
    && (forall id :: LeaseExpired(t, now, timeout, id) && id !in locked && id !in ids ==>
         |ids| == batch && forall chosen :: chosen in ids ==> StartedBefore(t, chosen, id))
  }

  /** What a claim hands its worker: a valid token of the item picked, or nothing. */
  predicate Hands(t: Table, picked: Option<Id>, token: Option<Token>) {
    if picked.Some? then token.Some? && token.value.id == picked.value && Holds(t, token.value) else token.None?
  }

  datatype Update = Updated | LostLease

  class Store {
    var rows: map<Id, Row>
    var tenants: map<Tenant, TenantRow>
    var closed: set<(Tenant, string)>
    var clock: Time

    function View(): Table
      reads this
    {
      Table(rows, tenants, closed, clock)
    }

    method Enqueue(now: Time, id: Id, tenant: Tenant, submitter: string, key: string, acl: set<string>,
                   request: Request)
      returns (answer: Enqueued)
      requires clock < now
      modifies this
      ensures EnqueueAnswers(old(View()), id, NewRow(now, tenant, submitter, key, acl, request), answer)
      ensures View() == Step(old(View()), Event(now, Action.Enqueue(id, tenant, submitter, key, acl, request, answer)))
    {
      clock := now;
      var found := FindIdempotent(tenant, submitter, key);
      if found.Some? {
        answer := if Equivalent(rows[found.value].request, request) then Existing(found.value) else Rejected;
      } else if id in rows {
        answer := IdTaken;
      } else {
        rows := rows[id := NewRow(now, tenant, submitter, key, acl, request)];
        answer := Created;
      }
    }

    method FindIdempotent(tenant: Tenant, submitter: string, key: string) returns (found: Option<Id>)
      ensures found.Some? ==> found.value in rows && SameKey(rows[found.value], tenant, submitter, key)
      ensures found.None? ==> forall id :: id in rows ==> !SameKey(rows[id], tenant, submitter, key)
    {
      var rest := rows.Keys;
      found := None;
      while rest != {} && found.None?
        invariant rest <= rows.Keys
        invariant found.Some? ==> found.value in rows && SameKey(rows[found.value], tenant, submitter, key)
        invariant found.None? ==> forall id :: id in rows && id !in rest ==> !SameKey(rows[id], tenant, submitter, key)
        decreases |rest|
      {
        var id :| id in rest;
        rest := rest - {id};
        if SameKey(rows[id], tenant, submitter, key) {
          found := Some(id);
        }
      }
    }

    /** The claim: pick, mark the tenant served, take the lease. */
    method ClaimNext(now: Time, locked: set<Id>, budgetSeconds: int) returns (token: Option<Token>)
      requires clock < now
      modifies this
      ensures exists picked: Option<Id> ::
                && Picks(old(View()), now, locked, picked)
                && View() == Step(old(View()),
                                  Event(now, Claim(locked, AtLeast(1, budgetSeconds) * TICKS_PER_SECOND, picked)))
                && Hands(View(), picked, token)
    {
      var picked := Pick(now, locked);
      clock := now;
      token := None;
      if picked.Some? {
        var id := picked.value;
        var row := rows[id];
        tenants := tenants[row.tenant := tenants[row.tenant].(lastClaimed := Some(now))];
        rows := rows[id := ClaimedRow(row, now, AtLeast(1, budgetSeconds) * TICKS_PER_SECOND)];
        token := Some(Token(id, rows[id].attempts, now));
      }
      assert Picks(old(View()), now, locked, picked);
    }

    method Pick(now: Time, locked: set<Id>) returns (picked: Option<Id>)
      ensures Picks(View(), now, locked, picked)
    {
      picked := None;
      var rest := rows.Keys;
      while rest != {}
        invariant rest <= rows.Keys
        invariant picked.None? ==> forall id :: Claimable(View(), now, id) && id !in rest ==> id in locked
        invariant picked.Some? ==> Claimable(View(), now, picked.value) && picked.value !in locked
        invariant picked.Some? ==>
                  forall id :: id in rows && Claimable(View(), now, id) && id !in rest && id !in locked ==>
                    id != picked.value ==> Precedes(View(), picked.value, id)
        decreases |rest|
      {
        var id :| id in rest;
        rest := rest - {id};
        if Claimable(View(), now, id) && id !in locked && (picked.None? || Precedes(View(), id, picked.value)) {
          picked := Some(id);
        }
      }
    }

    /** Requeues or fails the first expired leases, and counts both. */
    method ReleaseExpired(now: Time, timeoutSeconds: int, batchSize: int, locked: set<Id>)
        returns (released: nat, failed: nat, ghost ids: set<Id>)
      requires clock < now
      modifies this
      ensures var timeout := AtLeast(0, timeoutSeconds) * TICKS_PER_SECOND;
              && FirstExpired(old(View()), now, timeout, AtLeast(1, batchSize), locked, ids)
              && View() == Step(old(View()), Event(now, Expire(timeout, ids)))
      ensures released == |set id | id in ids && old(rows[id].attempts) <= MAX_ATTEMPTS|
      ensures released + failed == |ids|
    {
      var timeout := AtLeast(0, timeoutSeconds) * TICKS_PER_SECOND;
      var chosen := Expired(now, timeout, AtLeast(1, batchSize), locked);
      var again := set id | id in chosen && rows[id].attempts <= MAX_ATTEMPTS;
      var over := set id | id in chosen && rows[id].attempts > MAX_ATTEMPTS;
      assert chosen == again + over;
      rows := map id | id in rows :: if id in chosen then ExpiredRow(rows[id], now) else rows[id];
      clock := now;
      released, failed, ids := |again|, |over|, chosen;
    }

    method Expired(now: Time, timeout: nat, batch: nat, locked: set<Id>) returns (ids: set<Id>)
      ensures FirstExpired(View(), now, timeout, batch, locked, ids)
    {
      ids := {};
      var rest := set id | id in rows && LeaseExpired(View(), now, timeout, id) && id !in locked;
      while rest != {} && |ids| < batch
        invariant |ids| <= batch && ids !! rest
        invariant forall id ::
                    id in rows && LeaseExpired(View(), now, timeout, id) && id !in locked <==> id in ids || id in rest
        invariant forall chosen, id :: chosen in ids && id in rest ==>
                  chosen in rows && id in rows && StartedBefore(View(), chosen, id)
        decreases |rest|
      {
        var first := FirstStarted(rest);
        rest := rest - {first};
        ids := ids + {first};
      }
    }

    method FirstStarted(ids: set<Id>) returns (first: Id)
      requires ids != {} && ids <= rows.Keys
      ensures first in ids && forall id :: id in ids && id != first ==> StartedBefore(View(), first, id)
    {
      first :| first in ids;
      var rest := ids - {first};
      while rest != {}
        invariant first in ids && rest <= ids
        invariant forall id :: id in ids && id !in rest && id != first ==> StartedBefore(View(), first, id)
        decreases |rest|
      {
        var id :| id in rest;
        rest := rest - {id};
        if StartedBefore(View(), id, first) {
          first := id;
        }
      }
    }

    method HoldsLease(token: Token) returns (held: bool)
      ensures held == Holds(View(), token)
    {
      held := false;
      if token.id in rows {
        var row := rows[token.id];
        held := row.status == Processing && row.attempts == token.attempts && row.lease == Some(token.lease);
      }
    }

    method FinishLanded(now: Time, token: Token) returns (r: Update)
      requires clock < now
      modifies this
      ensures r == Updated <==> old(Holds(View(), token))
      ensures View() == Step(old(View()), Event(now, Finish(token)))
    {
      clock := now;
      var held := HoldsLease(token);
      r := LostLease;
      if held {
        rows := rows[token.id := LandedRow(rows[token.id], now)];
        r := Updated;
      }
    }

    method FailOrRetry(now: Time, token: Token, retryable: bool, freshBudget: bool) returns (r: Update)
      requires clock < now
      modifies this
      ensures r == Updated <==> old(Holds(View(), token))
      ensures View() == Step(old(View()), Event(now, Fail(token, retryable, freshBudget)))
    {
      clock := now;
      var held := HoldsLease(token);
      r := LostLease;
      if held {
        rows := rows[token.id := FailedRow(rows[token.id], now, token.attempts, retryable, freshBudget)];
        r := Updated;
      }
    }

    method ReleaseClaim(now: Time, id: Id, lease: Time) returns (released: bool)
      requires clock < now
      modifies this
      ensures released == old(Leased(View(), id, lease))
      ensures View() == Step(old(View()), Event(now, Release(id, lease)))
    {
      clock := now;
      released := id in rows && rows[id].status == Processing && rows[id].lease == Some(lease);
      if released {
        rows := rows[id := ReleasedRow(rows[id], now)];
      }
    }

    method RetryFailed(now: Time, id: Id) returns (retried: bool)
      requires clock < now
      modifies this
      ensures retried == (id in old(rows) && old(rows[id].status) == Failed)
      ensures View() == Step(old(View()), Event(now, Retry(id)))
    {
      clock := now;
      retried := id in rows && rows[id].status == Failed;
      if retried {
        rows := rows[id := RetriedRow(rows[id], now)];
      }
    }
  }
}
