/** What holds over every run of the queue: any interleaving of workers, expiry, voluntary release,
    administrator retry, suspension, and erasure. */
module QueueRuns {
  import opened Options
  import opened Queue

  ghost predicate Fresh(t: Table) {
    t.rows == map[] && forall x :: x in t.tenants ==> t.tenants[x].lastClaimed.None?
  }

  /** `run[i]` is the table before event `i`. */
  ghost predicate IsRun(run: seq<Table>, events: seq<Event>) {
    && |run| == |events| + 1 && Fresh(run[0])
    && forall i {:trigger events[i]} :: 0 <= i < |events| ==>
    Enabled(run[i], events[i]) && run[i + 1] == Step(run[i], events[i])
  }

  // ---- the shape of every row -----------------------------------------------------------------

  ghost predicate RowOk(row: Row, clock: Time) {
    && (row.status == Queued ==> row.attempts <= MAX_ATTEMPTS)
    && (row.status == Processing ==> 1 <= row.attempts <= MAX_ATTEMPTS + 1 && row.started.Some? && row.budget.Some?)
    && row.attempts <= MAX_ATTEMPTS + 1
    && (row.lease.Some? <==> row.status == Processing)
    && (row.finished.Some? <==> row.status in {Landed, Failed})
    && (row.lease.Some? ==> row.lease.value <= clock)
    && row.created <= clock
  }

  ghost predicate TableOk(t: Table) {
    && (forall id :: id in t.rows ==> RowOk(t.rows[id], t.clock))
    && (forall a, b :: a in t.rows && b in t.rows && a != b && t.rows[a].lease.Some? ==>
        t.rows[a].lease != t.rows[b].lease)
    && (forall a, b :: a in t.rows && b in t.rows && a != b ==>
         !SameKey(t.rows[a], t.rows[b].tenant, t.rows[b].submitter, t.rows[b].key))
    && (forall x :: x in t.tenants && t.tenants[x].lastClaimed.Some? ==> t.tenants[x].lastClaimed.value <= t.clock)
  }

  lemma UpdatesKeepRow(row: Row, now: Time, clock: Time, budget: nat, retryable: bool, freshBudget: bool)
    requires RowOk(row, clock) && clock < now
    ensures row.status == Queued ==> RowOk(ClaimedRow(row, now, budget), now)
    ensures row.status == Processing ==>
              && RowOk(ExpiredRow(row, now), now) && RowOk(LandedRow(row, now), now)
              && RowOk(ReleasedRow(row, now), now)
              && RowOk(FailedRow(row, now, row.attempts, retryable, freshBudget), now)
    ensures row.status == Failed ==> RowOk(RetriedRow(row, now), now)
    ensures RowOk(row, now)
  {
  }

  lemma StepKeepsRow(t: Table, e: Event, id: Id)
    requires Enabled(t, e) && id in Step(t, e).rows
    requires id in t.rows ==> RowOk(t.rows[id], t.clock)
    ensures RowOk(Step(t, e).rows[id], Step(t, e).clock)
  {
    var budget, retryable, freshBudget := 0, false, false;
    if e.action.Claim? { budget := e.action.budget; }
    if e.action.Fail? { retryable, freshBudget := e.action.retryable, e.action.freshBudget; }
    if id in t.rows { UpdatesKeepRow(t.rows[id], e.now, t.clock, budget, retryable, freshBudget); }
  }

  /** What one step does to an item's identity and lease. */
  lemma StepOnRow(t: Table, e: Event, id: Id)
    requires Enabled(t, e) && id in Step(t, e).rows
    ensures var after := Step(t, e).rows[id];
            if id in t.rows then
              && SameKey(after, t.rows[id].tenant, t.rows[id].submitter, t.rows[id].key)
              && after.request == t.rows[id].request && after.acl == t.rows[id].acl
              && after.created == t.rows[id].created
              && (after.lease.Some? ==>
                  after.lease == t.rows[id].lease
                  || (after.lease == Some(e.now) && e.action.Claim? && e.action.picked == Some(id)))
            else
              && e.action.Enqueue? && e.action.answer == Created && e.action.id == id && after.lease.None?
              && SameKey(after, e.action.tenant, e.action.submitter, e.action.key)
  {
  }

  lemma StepKeepsTenants(t: Table, e: Event)
    requires TableOk(t) && Enabled(t, e)
    ensures var u := Step(t, e);
            forall x :: x in u.tenants && u.tenants[x].lastClaimed.Some? ==> u.tenants[x].lastClaimed.value <= u.clock
    ensures t.clock < Step(t, e).clock
  {
  }

  lemma StepKeeps(t: Table, e: Event)
    requires TableOk(t) && Enabled(t, e)
    ensures TableOk(Step(t, e)) && t.clock < Step(t, e).clock
  {
    var u := Step(t, e);
    forall id | id in u.rows ensures RowOk(u.rows[id], u.clock) { StepKeepsRow(t, e, id); }
    forall a, b | a in u.rows && b in u.rows && a != b
      ensures u.rows[a].lease.Some? ==> u.rows[a].lease != u.rows[b].lease
      ensures !SameKey(u.rows[a], u.rows[b].tenant, u.rows[b].submitter, u.rows[b].key)
    {
      StepOnRow(t, e, a);
      StepOnRow(t, e, b);
    }
    StepKeepsTenants(t, e);
  }

  /** In every reachable table each row has the shape its status asks for, no two items share a lease
      or an idempotency key, and no stamp lies in the future. */
  lemma {:induction false} ReachableTables(run: seq<Table>, events: seq<Event>, i: nat)
    requires IsRun(run, events) && i < |run|
    ensures TableOk(run[i])
  {
    if i > 0 {
      ReachableTables(run, events, i - 1);
      var e := events[i - 1];
      StepKeeps(run[i - 1], e);
    }
  }

  lemma {:induction false} ClockAdvances(run: seq<Table>, events: seq<Event>, i: nat, j: nat)
    requires IsRun(run, events) && i <= j < |run|
    ensures run[i].clock <= run[j].clock && (i < j ==> run[i].clock < run[j].clock)
    decreases j - i
  {
    if i < j {
      ClockAdvances(run, events, i, j - 1);
      var e := events[j - 1];
    }
  }

  // ---- fencing ----------------------------------------------------------------------------------

  /** A token that could have been issued by now and is not valid is not valid after any step either. */
  lemma StaleStays(t: Table, e: Event, token: Token)
    requires TableOk(t) && Enabled(t, e) && token.lease <= t.clock && !Holds(t, token)
    ensures !Holds(Step(t, e), token)
  {
  }

  /** A token once invalid never becomes valid again, in any run. */
  lemma {:induction false} TokenNeverRevives(run: seq<Table>, events: seq<Event>, token: Token, i: nat, j: nat)
    requires IsRun(run, events) && i <= j < |run|
    requires token.lease <= run[i].clock && !Holds(run[i], token)
    ensures !Holds(run[j], token)
    decreases j - i
  {
    if i < j {
      TokenNeverRevives(run, events, token, i, j - 1);
      ReachableTables(run, events, j - 1);
      ClockAdvances(run, events, i, j - 1);
      var e := events[j - 1];
      StaleStays(run[j - 1], e, token);
    }
  }

  /** One item has at most one valid token, and one lease stamp names at most one token of any item. */
  lemma OneTokenAtATime(run: seq<Table>, events: seq<Event>, i: nat, a: Token, b: Token)
    requires IsRun(run, events) && i < |run|
    requires Holds(run[i], a) && Holds(run[i], b) && (a.id == b.id || a.lease == b.lease)
    ensures a == b
  {
    ReachableTables(run, events, i);
  }

  /** The claim that leaves an item with a valid token is the only step that makes one valid. */
  lemma OnlyAClaimIssues(t: Table, e: Event, token: Token)
    requires TableOk(t) && Enabled(t, e) && !Holds(t, token) && Holds(Step(t, e), token)
    ensures e.action.Claim? && e.action.picked == Some(token.id) && token.lease == e.now
    ensures token.attempts == t.rows[token.id].attempts + 1
  {
  }

  /** Exactly the holder can finish or fail an item: the row changes if and only if the token is valid,
      and then only that row; a release is fenced by the lease alone, which names one token. */
  lemma OnlyTheHolderUpdates(run: seq<Table>, events: seq<Event>, i: nat, token: Token, retryable: bool,
                             freshBudget: bool)
    requires IsRun(run, events) && i < |events|
    ensures events[i].action == Finish(token) ==>
              if Holds(run[i], token)
              then run[i + 1].rows == run[i].rows[token.id := LandedRow(run[i].rows[token.id], events[i].now)]
              else run[i + 1].rows == run[i].rows
    ensures events[i].action == Fail(token, retryable, freshBudget) ==>
              (run[i + 1].rows != run[i].rows <==> Holds(run[i], token))
    ensures events[i].action == Release(token.id, token.lease) && run[i + 1].rows != run[i].rows ==>
              exists held :: Holds(run[i], held) && held.id == token.id && held.lease == token.lease
    ensures events[i].action.Finish? || events[i].action.Fail? ==>
              forall id :: id in run[i].rows && id != events[i].action.token.id ==>
                  id in run[i + 1].rows && run[i + 1].rows[id] == run[i].rows[id]
  {
    var t, e := run[i], events[i];
    ReachableTables(run, events, i);
    if e.action == Release(token.id, token.lease) && Leased(t, token.id, token.lease) {
      assert Holds(t, Token(token.id, t.rows[token.id].attempts, token.lease));
    }
    if e.action == Fail(token, retryable, freshBudget) && Holds(t, token) {
      assert run[i + 1].rows[token.id].lease == None;
    }
  }

  /** Attempts alone would not fence: a claim given back and claimed again repeats its number. */
  lemma AttemptsRepeat() returns (run: seq<Table>, events: seq<Event>)
    ensures IsRun(run, events)
    ensures exists i, j, a, b :: 0 <= i < j < |run| && Holds(run[i], a) && Holds(run[j], b)
              && a.id == b.id && a.attempts == b.attempts && !Holds(run[j], a)
  {
    var t0 := Table(map[], map[0 := TenantRow(true, None)], {}, 0);
    var request := Request("capture", "", "");
    var e0 := Event(1, Enqueue(7, 0, "s", "k", {}, request, Created));
    var t1 := Step(t0, e0);
    var e1 := Event(2, Claim({}, 60, Some(7)));
    var t2 := Step(t1, e1);
    var e2 := Event(3, Release(7, 2));
    var t3 := Step(t2, e2);
    var e3 := Event(4, Claim({}, 60, Some(7)));
    var t4 := Step(t3, e3);
    run, events := [t0, t1, t2, t3, t4], [e0, e1, e2, e3];
    assert Holds(run[2], Token(7, 1, 2)) && Holds(run[4], Token(7, 1, 4)) && !Holds(run[4], Token(7, 1, 2));
  }

  // ---- counting claims ------------------------------------------------------------------------------

  /** Claims and voluntary releases of an item since its last administrator retry, and whether it ever
      had either of the last two. */
  datatype Tally = Tally(claims: nat, releases: nat, undisturbed: bool)

  predicate Changed(before: Table, after: Table, id: Id) {
    id in before.rows && id in after.rows && before.rows[id] != after.rows[id]
  }

  ghost function Count(run: seq<Table>, events: seq<Event>, id: Id, i: nat): Tally
    requires |run| == |events| + 1 && i < |run|
  {
    if i == 0 then Tally(0, 0, true)
    else
      var before := Count(run, events, id, i - 1);
      if !Changed(run[i - 1], run[i], id) then before
      else
        match events[i - 1].action
        case Claim(_, _, _) => before.(claims := before.claims + 1)
        case Release(_, _) => before.(releases := before.releases + 1, undisturbed := false)
        case Retry(_) => Tally(0, 0, false)
        case _ => before
  }

  lemma StepOnAttempts(t: Table, e: Event, id: Id)
    requires Enabled(t, e)
    requires id in t.rows && RowOk(t.rows[id], t.clock)
    ensures id in Step(t, e).rows
    ensures var before, after := t.rows[id], Step(t, e).rows[id];
            if before == after then after.attempts == before.attempts
            else match e.action
              case Claim(_, _, _) => after.attempts == before.attempts + 1
              case Release(_, _) => after.attempts == before.attempts - 1
              case Retry(_) => after.attempts == 0
              case _ => after.attempts == before.attempts
  {
  }

  lemma StepAdds(t: Table, e: Event, id: Id)
    requires Enabled(t, e) && id !in t.rows && id in Step(t, e).rows
    ensures Step(t, e).rows[id].attempts == 0
  {
  }

  /** Attempts are the claims less the voluntary releases since the last administrator retry. */
  lemma {:induction false} AttemptsAreClaims(run: seq<Table>, events: seq<Event>, id: Id, i: nat)
    requires IsRun(run, events) && i < |run|
    ensures var n := Count(run, events, id, i);
            && (id in run[i].rows ==> run[i].rows[id].attempts == n.claims - n.releases)
            && (id !in run[i].rows ==> n == Tally(0, 0, true))
            && (n.undisturbed ==> n.releases == 0)
  {
    hide Step, Enabled, RowOk;
    if i > 0 {
      AttemptsAreClaims(run, events, id, i - 1);
      ReachableTables(run, events, i - 1);
      var before, e := run[i - 1], events[i - 1];
      if id in before.rows {
        StepOnAttempts(before, e, id);
      } else if id in run[i].rows {
        StepAdds(before, e, id);
      }
    }
  }

  /** An item neither released nor retried by an administrator is claimed at most three times. */
  lemma AtMostThreeClaims(run: seq<Table>, events: seq<Event>, id: Id, i: nat)
    requires IsRun(run, events) && i < |run|
    requires Count(run, events, id, i).undisturbed
    ensures Count(run, events, id, i).claims <= MAX_ATTEMPTS + 1
  {
    AttemptsAreClaims(run, events, id, i);
    ReachableTables(run, events, i);
  }

  // ---- landing ---------------------------------------------------------------------------------------

  /** A landed item never changes again, so it lands once. */
  lemma {:induction false} LandedForever(run: seq<Table>, events: seq<Event>, id: Id, i: nat, j: nat)
    requires IsRun(run, events) && i <= j < |run|
    requires id in run[i].rows && run[i].rows[id].status == Landed
    ensures id in run[j].rows && run[j].rows[id] == run[i].rows[id]
    decreases j - i
  {
    if i < j {
      LandedForever(run, events, id, i, j - 1);
      ReachableTables(run, events, j - 1);
      var e := events[j - 1];
    }
  }

  /** Rows are never removed, and what was asked never changes. */
  lemma {:induction false} RequestsKept(run: seq<Table>, events: seq<Event>, id: Id, i: nat, j: nat)
    requires IsRun(run, events) && i <= j < |run| && id in run[i].rows
    ensures id in run[j].rows
    ensures var a, b := run[i].rows[id], run[j].rows[id];
            a.request == b.request && SameKey(a, b.tenant, b.submitter, b.key) && a.acl == b.acl
              && a.created == b.created
    decreases j - i
  {
    if i < j {
      RequestsKept(run, events, id, i, j - 1);
      var e := events[j - 1];
    }
  }

  lemma SameItem(t: Table, a: Id, b: Id)
    requires TableOk(t) && a in t.rows && b in t.rows
    requires SameKey(t.rows[a], t.rows[b].tenant, t.rows[b].submitter, t.rows[b].key)
    ensures a == b
  {
  }

  /** A repeated request is answered with the item it made, or refused, at every later time. */
  lemma RepeatedRequest(run: seq<Table>, events: seq<Event>, id: Id, i: nat, j: nat, again: Id, row: Row,
                        answer: Enqueued)
    requires IsRun(run, events) && i <= j < |run| && id in run[i].rows
    requires run[i].rows[id].tenant == row.tenant && run[i].rows[id].submitter == row.submitter
             && run[i].rows[id].key == row.key
    requires EnqueueAnswers(run[j], again, row, answer)
    ensures var asked := run[i].rows[id].request;
            answer == if asked.operation == row.request.operation && asked.content == row.request.content
                      then Existing(id) else Rejected
  {
    RequestsKept(run, events, id, i, j);
    ReachableTables(run, events, j);
    match answer
    case Existing(other) => {
      SameItem(run[j], id, other);
    }
    case Rejected => {
      var other :| other in run[j].rows && SameKey(run[j].rows[other], row.tenant, row.submitter, row.key)
                   && !Equivalent(run[j].rows[other].request, row.request);
      SameItem(run[j], id, other);
    }
    case _ =>
  }
}
