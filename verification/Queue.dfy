/** The leased work queue: each statement is one guarded update of a table that many workers share. */
module Queue {
  import opened Options

  const MAX_ATTEMPTS := 2
  const TICKS_PER_SECOND := 1000000
  const RETRY_DELAY := 10 * TICKS_PER_SECOND

  type Id = nat
  type Tenant = nat
  type Time = nat

  datatype Status = Queued | Processing | Landed | Failed

  /** `content` is what two requests must share to be the same; identifiers and capture times are not part of it. */
  datatype Request = Request(operation: string, content: string, volatile: string)

  datatype Row = Row(tenant: Tenant, submitter: string, key: string, acl: set<string>, request: Request, created: Time,
                     status: Status, attempts: nat, nextAttempt: Time, started: Option<Time>, budget: Option<Time>,
                     lease: Option<Time>, finished: Option<Time>)

  datatype TenantRow = TenantRow(active: bool, lastClaimed: Option<Time>)

  /** `closed` holds the layers of a tenant with an open erasure; `clock` is the time of the last step. */
  datatype Table = Table(rows: map<Id, Row>, tenants: map<Tenant, TenantRow>, closed: set<(Tenant, string)>,
                         clock: Time)

  // ---- enqueue ---------------------------------------------------------------------------------

  datatype Enqueued = Created | Existing(id: Id) | Rejected | IdTaken

  predicate SameKey(a: Row, tenant: Tenant, submitter: string, key: string) {
    a.tenant == tenant && a.submitter == submitter && a.key == key
  }

  predicate Equivalent(a: Request, b: Request) { a.operation == b.operation && a.content == b.content }

  function NewRow(now: Time, tenant: Tenant, submitter: string, key: string, acl: set<string>, request: Request): Row {
    Row(tenant, submitter, key, acl, request, now, Queued, 0, now, None, None, None, None)
  }

  /** What an insert that does nothing on a key conflict, and the lookup after it, answer. */
  ghost predicate EnqueueAnswers(t: Table, id: Id, row: Row, r: Enqueued) {
    match r
    case Created => id !in t.rows && forall i :: i in t.rows ==> !SameKey(t.rows[i], row.tenant, row.submitter, row.key)
    case Existing(i) => i in t.rows && SameKey(t.rows[i], row.tenant, row.submitter, row.key)
      && Equivalent(t.rows[i].request, row.request)
    case Rejected =>
      exists i ::
        && i in t.rows && SameKey(t.rows[i], row.tenant, row.submitter, row.key)
        && !Equivalent(t.rows[i].request, row.request)
    case IdTaken => id in t.rows && forall i :: i in t.rows ==> !SameKey(t.rows[i], row.tenant, row.submitter, row.key)
  }

  // ---- claim -----------------------------------------------------------------------------------

  predicate Claimable(t: Table, now: Time, id: Id) {
    && id in t.rows
    && var row := t.rows[id];
       && row.status == Queued && row.nextAttempt <= now
       && row.tenant in t.tenants && t.tenants[row.tenant].active
       && (forall layer :: layer in row.acl ==> (row.tenant, layer) !in t.closed)
  }

  /** Nulls first. */
  predicate Earlier(a: Option<Time>, b: Option<Time>) {
    match (a, b)
    case (None, Some(_)) => true
    case (Some(x), Some(y)) => x < y
    case _ => false
  }

  /** The claim order: the tenant served longest ago, then the oldest item, then the id. */
  predicate Precedes(t: Table, a: Id, b: Id)
    requires a in t.rows && b in t.rows && t.rows[a].tenant in t.tenants && t.rows[b].tenant in t.tenants
  {
    var x, y := t.rows[a], t.rows[b];
    var u, v := t.tenants[x.tenant].lastClaimed, t.tenants[y.tenant].lastClaimed;
    Earlier(u, v) || (u == v && (x.created < y.created || (x.created == y.created && a < b)))
  }

  /** The claim takes the first claimable item no other transaction has locked, if there is one. */
  predicate Picks(t: Table, now: Time, locked: set<Id>, picked: Option<Id>) {
    match picked
    case None => forall id :: id in t.rows && Claimable(t, now, id) ==> id in locked
    case Some(p) =>
      && Claimable(t, now, p) && p !in locked
      && forall id :: id in t.rows && Claimable(t, now, id) && id !in locked && id != p ==> Precedes(t, p, id)
  }

  function ClaimedRow(row: Row, now: Time, budget: nat): Row {
    row.(status := Processing, attempts := row.attempts + 1, lease := Some(now),
         started := if row.started.Some? then row.started else Some(now),
         budget := if row.budget.Some? then row.budget else Some(now + budget))
  }

  // ---- leases ----------------------------------------------------------------------------------

  /** What a worker is given with a claim, and what its updates are fenced on. */
  datatype Token = Token(id: Id, attempts: nat, lease: Time)

  predicate Holds(t: Table, token: Token) {
    && token.id in t.rows
    && var row := t.rows[token.id];
       row.status == Processing && row.attempts == token.attempts && row.lease == Some(token.lease)
  }

  predicate LeaseExpired(t: Table, now: Time, timeout: nat, id: Id) {
    id in t.rows && t.rows[id].status == Processing && t.rows[id].lease.Some? && t.rows[id].lease.value + timeout < now
  }

  function ExpiredRow(row: Row, now: Time): Row {
    if row.attempts <= MAX_ATTEMPTS then row.(status := Queued, lease := None, nextAttempt := now)
    else row.(status := Failed, lease := None, finished := Some(now))
  }

  function LandedRow(row: Row, now: Time): Row { row.(status := Landed, lease := None, finished := Some(now)) }

  function FailedRow(row: Row, now: Time, expected: nat, retryable: bool, freshBudget: bool): Row {
    if retryable && expected < MAX_ATTEMPTS then
      row.(status := Queued, lease := None, nextAttempt := now + RETRY_DELAY, finished := None,
           budget := if freshBudget then None else row.budget)
    else row.(status := Failed, lease := None, finished := Some(now))
  }

  function ReleasedRow(row: Row, now: Time): Row {
    row.(status := Queued, attempts := if row.attempts > 0 then row.attempts - 1 else 0, nextAttempt := now,
         started := None, budget := None, lease := None)
  }

  function RetriedRow(row: Row, now: Time): Row {
    row.(status := Queued, attempts := 0, nextAttempt := now, started := None, budget := None, lease := None,
         finished := None)
  }

  // ---- one step of any client --------------------------------------------------------------------

  datatype Action =
    | Enqueue(id: Id, tenant: Tenant, submitter: string, key: string, acl: set<string>, request: Request,
              answer: Enqueued)
    | Claim(locked: set<Id>, budget: nat, picked: Option<Id>)
    | Expire(timeout: nat, ids: set<Id>)
    | Finish(token: Token)
    | Fail(token: Token, retryable: bool, freshBudget: bool)
    | Release(id: Id, lease: Time)
    | Retry(id: Id)
    | SetTenant(tenant: Tenant, active: bool)
    | SetErasure(tenant: Tenant, layer: string, open: bool)

  /** Each step happens at its own time. */
  datatype Event = Event(now: Time, action: Action)

  predicate Leased(t: Table, id: Id, lease: Time) {
    id in t.rows && t.rows[id].status == Processing && t.rows[id].lease == Some(lease)
  }

  ghost predicate Enabled(t: Table, e: Event) {
    && t.clock < e.now
    && match e.action
       case Enqueue(id, tenant, submitter, key, acl, request, answer) =>
         EnqueueAnswers(t, id, NewRow(e.now, tenant, submitter, key, acl, request), answer)
       case Claim(locked, _, picked) => Picks(t, e.now, locked, picked)
       case Expire(timeout, ids) => forall id :: id in ids ==> LeaseExpired(t, e.now, timeout, id)
       case _ => true
  }

  function UpdateRow(t: Table, now: Time, id: Id, row: Row): Table { t.(rows := t.rows[id := row], clock := now) }

  function Step(t: Table, e: Event): (r: Table)
    requires Enabled(t, e)
  {
    var now := e.now;
    var idle := t.(clock := now);
    match e.action
    case Enqueue(id, tenant, submitter, key, acl, request, answer) =>
      if answer == Created then UpdateRow(t, now, id, NewRow(now, tenant, submitter, key, acl, request)) else idle
    case Claim(_, budget, picked) =>
      if picked.None? then idle
      else
        var row := t.rows[picked.value];
        Table(t.rows[picked.value := ClaimedRow(row, now, budget)],
              t.tenants[row.tenant := t.tenants[row.tenant].(lastClaimed := Some(now))], t.closed, now)
    case Expire(_, ids) =>
      t.(rows := map id | id in t.rows :: if id in ids then ExpiredRow(t.rows[id], now) else t.rows[id], clock := now)
    case Finish(token) =>
      if Holds(t, token) then UpdateRow(t, now, token.id, LandedRow(t.rows[token.id], now)) else idle
    case Fail(token, retryable, freshBudget) =>
      if Holds(t, token)
      then UpdateRow(t, now, token.id, FailedRow(t.rows[token.id], now, token.attempts, retryable, freshBudget))
      else idle
    case Release(id, lease) =>
      if Leased(t, id, lease) then UpdateRow(t, now, id, ReleasedRow(t.rows[id], now)) else idle
    case Retry(id) =>
      if id in t.rows && t.rows[id].status == Failed then UpdateRow(t, now, id, RetriedRow(t.rows[id], now)) else idle
    case SetTenant(tenant, active) =>
      var last := if tenant in t.tenants then t.tenants[tenant].lastClaimed else None;
      t.(tenants := t.tenants[tenant := TenantRow(active, last)], clock := now)
    case SetErasure(tenant, layer, open) =>
      t.(closed := if open then t.closed + {(tenant, layer)} else t.closed - {(tenant, layer)}, clock := now)
  }
}
