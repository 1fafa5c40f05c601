/** Tenants take turns at the claim. */
module TenantTurns {
  import opened Options
  import opened Queue
  import opened QueueRuns

  /** The tenants served so far and by this event. */
  ghost function AndServed(served: seq<Tenant>, t: Table, e: Event): (s: seq<Tenant>)
    requires Enabled(t, e)
    ensures served <= s
  {
    if e.action.Claim? && e.action.picked.Some? then served + [t.rows[e.action.picked.value].tenant] else served
  }

  /** The tenants served by the claims from event `i` on, before event `j`, in order. */
  ghost function Served(run: seq<Table>, events: seq<Event>, i: nat, j: nat): (s: seq<Tenant>)
    requires IsRun(run, events) && i <= j < |run|
    decreases j - i
  {
    if i == j then [] else AndServed(Served(run, events, i, j - 1), run[j - 1], events[j - 1])
  }

  /** The tenant has an item that claim `e` could take. */
  ghost predicate HasClaimable(t: Table, e: Event, tenant: Tenant) {
    e.action.Claim? ==>
      exists id :: Claimable(t, e.now, id) && id !in e.action.locked && t.rows[id].tenant == tenant
  }

  /** At every claim from event `i` on, before event `j`, the tenant has an item it could have taken. */
  ghost predicate Waits(run: seq<Table>, events: seq<Event>, tenant: Tenant, i: nat, j: nat)
    requires IsRun(run, events) && i <= j < |run|
  {
    forall k :: i <= k < j ==> HasClaimable(run[k], events[k], tenant)
  }

  ghost predicate NoDuplicates(s: seq<Tenant>) { forall a, b :: 0 <= a < b < |s| ==> s[a] != s[b] }

  /** Stamps order tenants: one served since event `i` was served later than one not served since. */
  ghost predicate ServedLater(t: Table, clock: Time, served: seq<Tenant>) {
    forall x :: x in served ==>
        x in t.tenants && t.tenants[x].lastClaimed.Some? && clock < t.tenants[x].lastClaimed.value
  }

  lemma StepKeepsServed(t: Table, e: Event, clock: Time, served: seq<Tenant>)
    requires Enabled(t, e) && clock <= t.clock && ServedLater(t, clock, served)
    ensures ServedLater(Step(t, e), clock, AndServed(served, t, e))
  {
  }

  lemma StepKeepsStamp(t: Table, e: Event, x: Tenant)
    requires Enabled(t, e)
    requires e.action.Claim? && e.action.picked.Some? ==> t.rows[e.action.picked.value].tenant != x
    ensures x in t.tenants ==> x in Step(t, e).tenants && Step(t, e).tenants[x].lastClaimed == t.tenants[x].lastClaimed
  {
  }

  /** Where the wait stands: the tenants served are distinct and were served after `clock`, and the
      waiting tenant's stamp is still the one it had, no later than `clock`. */
  ghost predicate Turn(t: Table, tenant: Tenant, stamp: Option<Time>, clock: Time, served: seq<Tenant>) {
    && NoDuplicates(served) && ServedLater(t, clock, served) && clock <= t.clock
    && tenant in t.tenants && t.tenants[tenant].lastClaimed == stamp
    && (stamp.Some? ==> stamp.value <= clock)
  }

  /** A waiting tenant not served since `clock` comes before every tenant served since. */
  lemma PickPrefersWaiting(t: Table, e: Event, tenant: Tenant, stamp: Option<Time>, clock: Time, served: seq<Tenant>)
    requires Enabled(t, e) && e.action.Claim? && e.action.picked.Some?
    requires Turn(t, tenant, stamp, clock, served) && HasClaimable(t, e, tenant)
    requires t.rows[e.action.picked.value].tenant != tenant
    ensures t.rows[e.action.picked.value].tenant !in served
  {
    var id :| Claimable(t, e.now, id) && id !in e.action.locked && t.rows[id].tenant == tenant;
    assert Precedes(t, e.action.picked.value, id);
  }

  /** One event of the wait. */
  lemma TurnStep(t: Table, e: Event, tenant: Tenant, stamp: Option<Time>, clock: Time, served: seq<Tenant>)
    requires Enabled(t, e) && Turn(t, tenant, stamp, clock, served) && HasClaimable(t, e, tenant)
    requires tenant !in AndServed(served, t, e)
    ensures Turn(Step(t, e), tenant, stamp, clock, AndServed(served, t, e))
  {
    StepKeepsServed(t, e, clock, served);
    if e.action.Claim? && e.action.picked.Some? {
      assert AndServed(served, t, e)[|served|] == t.rows[e.action.picked.value].tenant;
      PickPrefersWaiting(t, e, tenant, stamp, clock, served);
    }
    StepKeepsStamp(t, e, tenant);
  }

  lemma RunStep(run: seq<Table>, events: seq<Event>, k: nat)
    requires IsRun(run, events) && k < |events|
    ensures Enabled(run[k], events[k]) && run[k + 1] == Step(run[k], events[k])
  {
    var e := events[k];
  }

  /** While a tenant waits and is not served, no other tenant is served twice. */
  lemma {:induction false} NoTenantTwice(run: seq<Table>, events: seq<Event>, tenant: Tenant, i: nat, j: nat)
    requires IsRun(run, events) && i <= j < |run| && tenant in run[i].tenants
    requires Waits(run, events, tenant, i, j) && tenant !in Served(run, events, i, j)
    ensures Turn(run[j], tenant, run[i].tenants[tenant].lastClaimed, run[i].clock, Served(run, events, i, j))
    decreases j - i
  {
    var stamp := run[i].tenants[tenant].lastClaimed;
    if i == j {
      ReachableTables(run, events, i);
    } else {
      var k := j - 1;
      var served := Served(run, events, i, k);
      RunStep(run, events, k);
      assert HasClaimable(run[k], events[k], tenant);
      assert Served(run, events, i, j) == AndServed(served, run[k], events[k]);
      NoTenantTwice(run, events, tenant, i, k);
      TurnStep(run[k], events[k], tenant, stamp, run[i].clock, served);
    }
  }

  lemma {:induction false} DistinctFit(s: seq<Tenant>, all: set<Tenant>)
    requires NoDuplicates(s) && forall x :: x in s ==> x in all
    ensures |s| <= |all|
  {
    if s != [] {
      var n := |s| - 1;
      forall x | x in s[..n] ensures x in all - {s[n]} {
        var k :| 0 <= k < n && s[k] == x;
      }
      DistinctFit(s[..n], all - {s[n]});
    }
  }

  /** The claims from event `i` on, before event `j`. */
  function Claims(events: seq<Event>, i: nat, j: nat): nat
    requires i <= j <= |events|
    decreases j - i
  {
    if i == j then 0 else Claims(events, i, j - 1) + if events[j - 1].action.Claim? then 1 else 0
  }

  /** While a tenant waits, every claim serves somebody. */
  lemma {:induction false} ClaimsServe(run: seq<Table>, events: seq<Event>, tenant: Tenant, i: nat, j: nat)
    requires IsRun(run, events) && i <= j < |run| && Waits(run, events, tenant, i, j)
    ensures |Served(run, events, i, j)| == Claims(events, i, j)
    decreases j - i
  {
    if i < j {
      var k := j - 1;
      RunStep(run, events, k);
      assert HasClaimable(run[k], events[k], tenant);
      ClaimsServe(run, events, tenant, i, k);
    }
  }

  /** A waiting tenant's wait is bounded by the number of tenants, however large their backlogs: by the time there
      have been as many claims it has been served. */
  lemma WaitIsBounded(run: seq<Table>, events: seq<Event>, tenant: Tenant, i: nat, j: nat)
    requires IsRun(run, events) && i <= j < |run| && tenant in run[i].tenants
    requires Waits(run, events, tenant, i, j) && Claims(events, i, j) >= |run[j].tenants|
    ensures tenant in Served(run, events, i, j)
  {
    var served := Served(run, events, i, j);
    ClaimsServe(run, events, tenant, i, j);
    if tenant !in served {
      NoTenantTwice(run, events, tenant, i, j);
      DistinctFit(served, run[j].tenants.Keys - {tenant});
      assert false;
    }
  }
}
