/**
 Webhook deliveries: rows that a single dispatcher selects in order of their retry time, attempts,
 and marks delivered, reschedules with backoff, or dead-letters.

 A row's index in the table is its creation order, which also breaks ties between equal retry
 times. Instants are seconds, as reals. A whole run is a sequence of `Step`s; drainers may insert
 rows at any point, an update whose error the dispatcher discards may be lost, and the dispatcher may
 be restarted at any point. Posting to a URL that does not parse panics, which ends the process.
 */
module Deliveries {
  datatype Status = Pending | Delivered | Dead

  /** `parses`: the row's URL is one that a request can be made for. */
  datatype Delivery = Delivery(status: Status, attempts: nat, nextRetryAt: real, parses: bool)

  /** The snapshot of a row that the dispatcher works from. */
  datatype Due = Due(id: nat, attempts: nat)

  /** How one attempt goes: nothing to post to, no HTTP response, or a response. */
  datatype Reply = NoEndpoint | NoResponse | Response(code: int)

  const MAX_ATTEMPTS := 5
  const BATCH := 50

  function Backoff(attempts: nat): (delay: real)
    ensures delay >= 2.0
  {
    match attempts
    case 0 => 2.0
    case 1 => 5.0
    case 2 => 15.0
    case 3 => 60.0
    case _ => 300.0
  }

  predicate Succeeds(r: Reply) {
    r.Response? && 200 <= r.code < 300
  }

  /** There is an endpoint, but no request can be made for the row's URL: the nil request is dereferenced. */
  predicate Panics(d: Delivery, r: Reply) {
    !d.parses && !r.NoEndpoint?
  }

  // ---------------------------------------------------------------- selecting what is due

  predicate IsDue(d: Delivery, now: real) {
    d.status == Pending && d.nextRetryAt <= now
  }

  predicate Before(rows: seq<Delivery>, i: nat, j: nat)
    requires i < |rows| && j < |rows|
  {
    rows[i].nextRetryAt < rows[j].nextRetryAt || (rows[i].nextRetryAt == rows[j].nextRetryAt && i < j)
  }

  predicate InOrder(rows: seq<Delivery>, ids: seq<nat>) {
    && (forall k | 0 <= k < |ids| :: ids[k] < |rows|)
    && forall a, b | 0 <= a < b < |ids| :: Before(rows, ids[a], ids[b])
  }

  function Insert(rows: seq<Delivery>, ids: seq<nat>, i: nat): (r: seq<nat>)
    requires i < |rows| && InOrder(rows, ids) && i !in ids
    ensures InOrder(rows, r)
    ensures forall j: nat :: j in r <==> j in ids || j == i
  {
    if ids == [] then [i]
    else if Before(rows, i, ids[0]) then [i] + ids
    else
      var rest := Insert(rows, ids[1..], i);
      assert forall j: nat | j in rest :: (j in ids[1..] || j == i) && Before(rows, ids[0], j);
      [ids[0]] + rest
  }

  /** The due rows among the first `n`, by retry time, then by creation. */
  function SortedDue(rows: seq<Delivery>, now: real, n: nat): (ids: seq<nat>)
    requires n <= |rows|
    ensures InOrder(rows, ids)
    ensures forall j: nat :: j in ids <==> j < n && rows[j].status == Pending && rows[j].nextRetryAt <= now
  {
    if n == 0 then [] else
      var ids := SortedDue(rows, now, n - 1);
      if IsDue(rows[n - 1], now) then Insert(rows, ids, n - 1) else ids
  }

  function Take<T>(xs: seq<T>, n: nat): seq<T> {
    if |xs| <= n then xs else xs[..n]
  }

  function SelectDue(rows: seq<Delivery>, now: real, limit: nat): (batch: seq<Due>)
    ensures |batch| == |Take(SortedDue(rows, now, |rows|), limit)|
  {
    var ids := Take(SortedDue(rows, now, |rows|), limit);
    seq(|ids|, k requires 0 <= k < |ids| => Due(ids[k], rows[ids[k]].attempts))
  }

  /** A tick selects at most fifty pending rows that are due, with their attempt counts, by retry time. */
  lemma SelectsInOrder(rows: seq<Delivery>, now: real)
    ensures var batch := SelectDue(rows, now, BATCH);
            && |batch| <= 50
            && (forall k | 0 <= k < |batch| ::
                  && batch[k].id < |rows| && rows[batch[k].id].status == Pending && rows[batch[k].id].nextRetryAt <= now
                  && batch[k].attempts == rows[batch[k].id].attempts)
            && (forall j, k | 0 <= j < k < |batch| :: rows[batch[j].id].nextRetryAt <= rows[batch[k].id].nextRetryAt)
  {
    var ids, batch := SortedDue(rows, now, |rows|), SelectDue(rows, now, BATCH);
    assert forall k | 0 <= k < |batch| :: batch[k].id == ids[k] && ids[k] in ids;
    assert forall j, k | 0 <= j < k < |ids| :: Before(rows, ids[j], ids[k]);
  }

  /** It leaves out such a row only if it has fifty, none of them due later. */
  lemma LeavesOutOnlyLater(rows: seq<Delivery>, now: real, i: nat)
    requires i < |rows| && rows[i].status == Pending && rows[i].nextRetryAt <= now
    ensures var batch := SelectDue(rows, now, BATCH);
            || (exists k :: 0 <= k < |batch| && batch[k].id == i)
            || (|batch| == 50 && forall k | 0 <= k < |batch| ::
                  batch[k].id < |rows| && rows[batch[k].id].nextRetryAt <= rows[i].nextRetryAt)
  {
    var ids, batch := SortedDue(rows, now, |rows|), SelectDue(rows, now, BATCH);
    assert i in ids;
    var p :| 0 <= p < |ids| && ids[p] == i;
    if p < BATCH {
      assert batch[p].id == i;
    } else {
      assert forall k | 0 <= k < |batch| :: batch[k].id == ids[k] && Before(rows, ids[k], ids[p]);
    }
  }

  // ---------------------------------------------------------------- attempting one delivery

  function AfterSuccess(d: Delivery): Delivery {
    d.(status := Delivered, attempts := d.attempts + 1)
  }

  /** `seen` is the attempt count in the dispatcher's snapshot; the row's own count is incremented by the update. */
  function AfterFailure(d: Delivery, seen: nat, at: real): Delivery {
    if seen + 1 >= MAX_ATTEMPTS then d.(status := Dead, attempts := d.attempts + 1, nextRetryAt := at)
    else d.(status := Pending, attempts := d.attempts + 1, nextRetryAt := at + Backoff(seen))
  }

  function AfterAttempt(d: Delivery, seen: nat, r: Reply, at: real): Delivery {
    if Succeeds(r) then AfterSuccess(d) else AfterFailure(d, seen, at)
  }

  /** A code in 200..299 delivers; anything else is retried after 2, 5, 15 and 60 seconds, and ends the fifth time. */
  predicate GoesAs(was: Delivery, seen: nat, reply: Reply, at: real, now: Delivery) {
    && now.attempts == was.attempts + 1 && now.parses == was.parses
    && if reply.Response? && 200 <= reply.code < 300
       then now.status == Delivered && now.nextRetryAt == was.nextRetryAt
       else if seen < 4
       then now.status == Pending && now.nextRetryAt == at + [2.0, 5.0, 15.0, 60.0][seen]
       else now.status == Dead && now.nextRetryAt == at
  }

  lemma AttemptGoes(d: Delivery, seen: nat, reply: Reply, at: real)
    ensures GoesAs(d, seen, reply, at, AfterAttempt(d, seen, reply, at))
  {
  }

  /** New rows, due at the start of the transactions that insert them. */
  function Fresh(drained: seq<(real, bool)>): seq<Delivery> {
    seq(|drained|, k requires 0 <= k < |drained| => Delivery(Pending, 0, drained[k].0, drained[k].1))
  }

  /** One tick without interference: attempt the batch in order, up to an attempt that panics. */
  function DeliverAll(rows: seq<Delivery>, batch: seq<Due>, oracle: nat -> (Reply, real), from: nat)
    : (r: (seq<Delivery>, bool))
    requires from <= |batch| && forall d | d in batch :: d.id < |rows|
    ensures |r.0| == |rows|
    decreases |batch| - from
  {
    if from == |batch| then (rows, false) else
      var d, (reply, at) := batch[from], oracle(from);
      if Panics(rows[d.id], reply) then (rows, true)
      else DeliverAll(rows[d.id := AfterAttempt(rows[d.id], d.attempts, reply, at)], batch, oracle, from + 1)
  }

  class Dispatcher {
    var rows: seq<Delivery>

    constructor (rows: seq<Delivery>)
      ensures this.rows == rows
    {
      this.rows := rows;
    }

    method MarkDelivered(id: nat)
      requires id < |rows|
      modifies this
      ensures rows == old(rows)[id := AfterSuccess(old(rows)[id])]
    {
      rows := rows[id := rows[id].(status := Delivered, attempts := rows[id].attempts + 1)];
    }

    method Reschedule(id: nat, status: Status, nextRetryAt: real)
      requires id < |rows|
      modifies this
      ensures var row := old(rows)[id];
              rows == old(rows)[id := Delivery(status, row.attempts + 1, nextRetryAt, row.parses)]
    {
      rows := rows[id := Delivery(status, rows[id].attempts + 1, nextRetryAt, rows[id].parses)];
    }

    method Fail(d: Due, at: real)
      requires d.id < |rows|
      modifies this
      ensures rows == old(rows)[d.id := AfterFailure(old(rows)[d.id], d.attempts, at)]
    {
      var attempts := d.attempts + 1;
      if attempts >= MAX_ATTEMPTS {
        Reschedule(d.id, Dead, at);
        return;
      }
      Reschedule(d.id, Pending, at + Backoff(d.attempts));
    }

    method Deliver(d: Due, reply: Reply, at: real) returns (panics: bool)
      requires d.id < |rows|
      modifies this
      ensures panics <==> !reply.NoEndpoint? && !old(rows)[d.id].parses
      ensures rows == if panics then old(rows)
                      else old(rows)[d.id := AfterAttempt(old(rows)[d.id], d.attempts, reply, at)]
      ensures !panics ==> GoesAs(old(rows)[d.id], d.attempts, reply, at, rows[d.id])
    {
      AttemptGoes(rows[d.id], d.attempts, reply, at);
      if reply.NoEndpoint? {
        Fail(d, at);
        return false;
      }
      if !rows[d.id].parses {
        return true;
      }
      if reply.Response? && 200 <= reply.code < 300 {
        MarkDelivered(d.id);
        return false;
      }
      Fail(d, at);
      panics := false;
    }

    /**
     One tick: a drain, which may insert rows due at given instants and with URLs that parse or not, then the batch.
     `selectFails` is an error of the selection; `oracle(k)` says how and when the k-th attempt of the batch goes.
     */
    method Tick(drained: seq<(real, bool)>, now: real, selectFails: bool, oracle: nat -> (Reply, real))
      returns (panics: bool)
      modifies this
      ensures var arrived := old(rows) + Fresh(drained);
              var batch := if selectFails then [] else SelectDue(arrived, now, BATCH);
              (forall d | d in batch :: d.id < |arrived|) && (rows, panics) == DeliverAll(arrived, batch, oracle, 0)
    {
      rows := rows + Fresh(drained);
      if selectFails {
        return false;
      }
      ghost var arrived := rows;
      var due := SelectDue(rows, now, BATCH);
      for k := 0 to |due|
        invariant |rows| == |arrived|
        invariant DeliverAll(rows, due, oracle, k) == DeliverAll(arrived, due, oracle, 0)
      {
        var (reply, at) := oracle(k);
        panics := Deliver(due[k], reply, at);
        if panics {
          return;
        }
      }
      panics := false;
    }
  }

  // ---------------------------------------------------------------- whole runs

  /** What is seen of a row besides its columns: POSTs sent, updates lost, instants and replies of recorded attempts. */
  datatype Audit = Audit(posts: nat, lost: nat, tries: seq<real>, replies: seq<Reply>)

  datatype State = State(rows: seq<Delivery>, audits: seq<Audit>, batch: seq<Due>, clock: real)

  /**
   Arrive: some drainer commits a new row, due when its transaction began. Select: the dispatcher starts a tick.
   Attempt: it handles the next row of its batch, and the update is stored or lost, or it panics. Restart: it stops.
   Stopping or panicking, it forgets its batch, and is started again. Every step reads the clock.
   */
  datatype Step =
    | Arrive(at: real, due: real, parses: bool)
    | Select(at: real)
    | Attempt(reply: Reply, at: real, stored: bool)
    | Restart(at: real)

  predicate Shape(s: State) {
    |s.audits| == |s.rows| && forall d | d in s.batch :: d.id < |s.rows|
  }

  const EMPTY := State([], [], [], 0.0)

  predicate Enabled(s: State, step: Step) {
    && s.clock <= step.at
    && (step.Select? ==> s.batch == [])
    && (step.Attempt? ==> s.batch != [])
  }

  function Audited(a: Audit, reply: Reply, at: real, stored: bool): Audit {
    var a := if reply.NoEndpoint? then a else a.(posts := a.posts + 1);
    if stored then a.(tries := a.tries + [at], replies := a.replies + [reply]) else a.(lost := a.lost + 1)
  }

  /** A step that is not enabled changes nothing. */
  function Next(s: State, step: Step): (s': State)
    requires Shape(s)
    ensures Shape(s') && |s.rows| <= |s'.rows|
  {
    if !Enabled(s, step) then s else
      match step
      case Arrive(at, due, parses) =>
        var row, audit := Delivery(Pending, 0, due, parses), Audit(0, 0, [], []);
        s.(rows := s.rows + [row], audits := s.audits + [audit], clock := at)
      case Select(at) =>
        s.(batch := SelectDue(s.rows, at, BATCH), clock := at)
      case Attempt(reply, at, stored) =>
        var d := s.batch[0];
        if Panics(s.rows[d.id], reply) then s.(batch := [], clock := at) else State(
          if stored then s.rows[d.id := AfterAttempt(s.rows[d.id], d.attempts, reply, at)] else s.rows,
          s.audits[d.id := Audited(s.audits[d.id], reply, at, stored)],
          s.batch[1..], at)
      case Restart(at) => s.(batch := [], clock := at)
  }

  function Run(s: State, steps: seq<Step>): (s': State)
    requires Shape(s)
    ensures Shape(s') && |s.rows| <= |s'.rows|
  {
    if steps == [] then s else Next(Run(s, steps[..|steps| - 1]), steps[|steps| - 1])
  }

  // ---------------------------------------------------------------- the life of a delivery

  /** Consecutive recorded attempts are at least the backoff apart. */
  ghost predicate Spaced(tries: seq<real>) {
    forall k: nat | k + 1 < |tries| :: tries[k] + Backoff(k) <= tries[k + 1]
  }

  ghost predicate RowOk(d: Delivery, a: Audit) {
    && d.attempts == |a.tries| == |a.replies|
    && Spaced(a.tries)
    && (forall k | 0 <= k < |a.replies| :: Succeeds(a.replies[k]) <==> d.status == Delivered && k == |a.replies| - 1)
    && a.posts <= d.attempts + a.lost
    && (d.status == Pending ==> d.attempts < MAX_ATTEMPTS)
    && (d.status == Dead ==> d.attempts == MAX_ATTEMPTS)
    && (d.status == Delivered ==> 1 <= d.attempts <= MAX_ATTEMPTS)
    && (d.status == Pending && d.attempts > 0 ==>
          d.nextRetryAt == a.tries[d.attempts - 1] + Backoff(d.attempts - 1))
  }

  /** The batch holds distinct pending rows, as they are in the table, already due. */
  ghost predicate BatchOk(s: State) {
    && (forall d | d in s.batch ::
          && d.id < |s.rows| && s.rows[d.id].status == Pending
          && s.rows[d.id].attempts == d.attempts && s.rows[d.id].nextRetryAt <= s.clock)
    && forall a, b | 0 <= a < b < |s.batch| :: s.batch[a].id != s.batch[b].id
  }

  ghost predicate Inv(s: State) {
    && Shape(s) && BatchOk(s)
    && forall i | 0 <= i < |s.rows| :: RowOk(s.rows[i], s.audits[i])
  }

  lemma AttemptKeepsRow(d: Delivery, a: Audit, reply: Reply, at: real, stored: bool)
    requires RowOk(d, a) && d.status == Pending && d.nextRetryAt <= at
    ensures RowOk(if stored then AfterAttempt(d, d.attempts, reply, at) else d, Audited(a, reply, at, stored))
  {
    SpacedSnoc(a.tries, at);
    if stored {
      StoredKeepsRow(d, a, reply, at);
    }
  }

  lemma StoredKeepsRow(d: Delivery, a: Audit, reply: Reply, at: real)
    requires RowOk(d, a) && d.status == Pending && Spaced(a.tries + [at])
    ensures RowOk(AfterAttempt(d, d.attempts, reply, at), Audited(a, reply, at, true))
  {
    var d', a' := AfterAttempt(d, d.attempts, reply, at), Audited(a, reply, at, true);
    assert a'.replies == a.replies + [reply] && a'.tries == a.tries + [at];
    assert d'.status == Delivered <==> Succeeds(reply);
    assert forall k | 0 <= k < |a.replies| :: a'.replies[k] == a.replies[k] && !Succeeds(a.replies[k]);
  }

  lemma SpacedSnoc(tries: seq<real>, at: real)
    requires Spaced(tries) && (tries != [] ==> tries[|tries| - 1] + Backoff(|tries| - 1) <= at)
    ensures Spaced(tries + [at])
  {
  }

  lemma SelectKeepsBatch(s: State, at: real)
    requires Shape(s) && s.clock <= at
    ensures BatchOk(s.(batch := SelectDue(s.rows, at, BATCH), clock := at))
  {
    var ids := SortedDue(s.rows, at, |s.rows|);
    assert forall k | 0 <= k < |ids| :: ids[k] in ids;
  }

  lemma ArriveKeepsInv(s: State, step: Step)
    requires Inv(s) && step.Arrive? && Enabled(s, step)
    ensures Inv(Next(s, step))
  {
    assert forall d | d in s.batch :: d.id < |s.rows|;
  }

  lemma AttemptKeepsInv(s: State, step: Step)
    requires Inv(s) && step.Attempt? && Enabled(s, step)
    ensures Inv(Next(s, step))
  {
    var d := s.batch[0];
    assert d in s.batch;
    AttemptKeepsRow(s.rows[d.id], s.audits[d.id], step.reply, step.at, step.stored);
    assert forall e | e in s.batch[1..] :: e in s.batch && e.id != d.id;
  }

  lemma StepKeepsInv(s: State, step: Step)
    requires Inv(s)
    ensures Inv(Next(s, step))
  {
    if Enabled(s, step) {
      match step
      case Arrive(_, _, _) => ArriveKeepsInv(s, step);
      case Restart(_) =>
      case Select(at) => SelectKeepsBatch(s, at);
      case Attempt(_, _, _) => AttemptKeepsInv(s, step);
    }
  }

  /** Delivered and dead rows never change again, and are never posted again. */
  lemma SettledIsFinal(s: State, step: Step, i: nat)
    requires Inv(s) && i < |s.rows| && s.rows[i].status != Pending
    ensures var s' := Next(s, step); s'.rows[i] == s.rows[i] && s'.audits[i] == s.audits[i]
  {
    if Enabled(s, step) && step.Attempt? {
      assert s.batch[0] in s.batch;
    }
  }

  /**
   What every reachable row is: its attempts are the recorded ones; a code in 200..299 came with the last of them if the
   row is delivered, and with no other; a pending row has fewer than five and waits for its delay; a dead one has five;
   and consecutive attempts are at least 2, 5, 15 and 60 seconds apart.
   */
  ghost predicate Life(d: Delivery, a: Audit) {
    && d.attempts == |a.tries| == |a.replies| <= 5 && a.posts <= d.attempts + a.lost
    && (forall k | 0 <= k < |a.replies| ::
          a.replies[k].Response? && 200 <= a.replies[k].code < 300 <==> d.status == Delivered && k == |a.replies| - 1)
    && (forall k | 0 <= k < |a.tries| - 1 :: a.tries[k + 1] - a.tries[k] >= [2.0, 5.0, 15.0, 60.0][k])
    && match d.status
       case Pending =>
         |a.tries| < 5 && (a.tries != [] ==>
           d.nextRetryAt == a.tries[|a.tries| - 1] + [2.0, 5.0, 15.0, 60.0][|a.tries| - 1])
       case Delivered => |a.tries| >= 1
       case Dead => |a.tries| == 5
  }

  lemma BackoffIs(k: nat)
    requires k < 4
    ensures Backoff(k) == [2.0, 5.0, 15.0, 60.0][k]
  {
  }

  lemma RowLives(d: Delivery, a: Audit)
    requires RowOk(d, a)
    ensures Life(d, a)
  {
    forall k | 0 <= k < |a.tries| - 1 ensures a.tries[k + 1] - a.tries[k] >= [2.0, 5.0, 15.0, 60.0][k] {
      BackoffIs(k);
      assert a.tries[k] + Backoff(k) <= a.tries[k + 1];
    }
    if d.status == Pending && d.attempts > 0 {
      BackoffIs(d.attempts - 1);
    }
  }

  /**
   Over every run of one dispatcher, with any arrivals, lost updates, panics and restarts: every row lives so, a row
   that has settled stays exactly as it is, and a fifth attempt comes at least 2 + 5 + 15 + 60 seconds after the first.
   */
  lemma {:induction false} Lifecycle(s: State, steps: seq<Step>)
    requires Inv(s)
    ensures var s' := Run(s, steps);
            && Inv(s')
            && (forall i | 0 <= i < |s'.rows| :: Life(s'.rows[i], s'.audits[i]))
            && (forall i | 0 <= i < |s'.rows| && s'.rows[i].attempts == 5 ::
                  s'.audits[i].tries[4] - s'.audits[i].tries[0] >= 82.0)
            && (forall i | 0 <= i < |s.rows| && s.rows[i].status != Pending ::
                  s'.rows[i] == s.rows[i] && s'.audits[i] == s.audits[i])
  {
    if steps != [] {
      var n := |steps| - 1;
      Lifecycle(s, steps[..n]);
      var before := Run(s, steps[..n]);
      StepKeepsInv(before, steps[n]);
      forall i: nat | i < |s.rows| && s.rows[i].status != Pending
        ensures Run(s, steps).rows[i] == s.rows[i] && Run(s, steps).audits[i] == s.audits[i]
      {
        SettledIsFinal(before, steps[n], i);
      }
    }
    AllLive(Run(s, steps));
  }

  /** All of this holds from the start: every run begins without rows. */
  lemma LifecycleFromStart(steps: seq<Step>)
    ensures var s := Run(EMPTY, steps); Inv(s) && forall i | 0 <= i < |s.rows| :: Life(s.rows[i], s.audits[i])
  {
    Lifecycle(EMPTY, steps);
  }

  lemma AllLive(s: State)
    requires Inv(s)
    ensures forall i | 0 <= i < |s.rows| :: Life(s.rows[i], s.audits[i])
    ensures forall i | 0 <= i < |s.rows| && s.rows[i].attempts == 5 ::
              s.audits[i].tries[4] - s.audits[i].tries[0] >= 82.0
  {
    forall i: nat | i < |s.rows|
      ensures Life(s.rows[i], s.audits[i])
      ensures s.rows[i].attempts == 5 ==> s.audits[i].tries[4] - s.audits[i].tries[0] >= 82.0
    {
      RowLives(s.rows[i], s.audits[i]);
      if s.rows[i].attempts == 5 {
        FifthIsLate(s.rows[i], s.audits[i]);
      }
    }
  }

  lemma FifthIsLate(d: Delivery, a: Audit)
    requires Life(d, a) && d.attempts == 5
    ensures a.tries[4] - a.tries[0] >= 82.0
  {
    var t := a.tries;
    assert t[0 + 1] - t[0] >= 2.0 && t[1 + 1] - t[1] >= 5.0 && t[2 + 1] - t[2] >= 15.0 && t[3 + 1] - t[3] >= 60.0;
  }

  // ---------------------------------------------------------------- no starvation

  function BatchIds(batch: seq<Due>): set<nat> {
    set d | d in batch :: d.id
  }

  /** Pending rows that come before row `i` and are not already in the dispatcher's hands. */
  function Ahead(s: State, i: nat): set<nat>
    requires i < |s.rows|
  {
    set j: nat | j < |s.rows| && s.rows[j].status == Pending && Before(s.rows, j, i) && j !in BatchIds(s.batch)
  }

  /** Row `i` is due and has not been selected; `k` rows are ahead of it. */
  ghost predicate Waits(s: State, i: nat, row: Delivery, k: nat) {
    && i < |s.rows| && s.rows[i] == row && IsDue(row, s.clock)
    && i !in BatchIds(s.batch) && |Ahead(s, i)| == k
  }

  /** The selections made in a run, one per tick. */
  function Ticks(s: State, steps: seq<Step>): nat
    requires Shape(s)
  {
    if steps == [] then 0 else
      var n := |steps| - 1;
      Ticks(s, steps[..n]) + if steps[n].Select? && Enabled(Run(s, steps[..n]), steps[n]) then 1 else 0
  }

  /** The dispatcher is not restarted from outside, and its updates are stored. */
  predicate Steady(step: Step) {
    !step.Restart? && (step.Attempt? ==> step.stored)
  }

  /** A row that arrives already due before `row`, because the transaction that inserted it began long ago. */
  predicate Overtakes(step: Step, row: Delivery) {
    step.Arrive? && step.due < row.nextRetryAt
  }

  function Overtakers(s: State, steps: seq<Step>, row: Delivery): nat
    requires Shape(s)
  {
    if steps == [] then 0 else
      var n := |steps| - 1;
      Overtakers(s, steps[..n], row)
      + if Overtakes(steps[n], row) && Enabled(Run(s, steps[..n]), steps[n]) then 1 else 0
  }

  /** Such steps, among them no arrival that would bar the way to `row`. */
  predicate Smooth(steps: seq<Step>, row: Delivery) {
    forall step | step in steps :: Steady(step) && (Overtakes(step, row) ==> step.parses)
  }

  /** Row `u` is pending with a URL that does not parse, and is row `i` or comes before it. */
  predicate Bars(s: State, u: nat, i: nat) {
    && u < |s.rows| && i < |s.rows|
    && s.rows[u].status == Pending && !s.rows[u].parses && (u == i || Before(s.rows, u, i))
  }

  /** Nothing bars row `i`, and nothing in the dispatcher's hands panics. */
  ghost predicate Clear(s: State, i: nat) {
    (forall u: nat :: !Bars(s, u, i)) && forall d | d in s.batch :: d.id < |s.rows| && s.rows[d.id].parses
  }

  lemma ArriveKeepsWaiting(s: State, step: Step, i: nat, row: Delivery, k: nat)
    requires Inv(s) && Waits(s, i, row, k) && step.Arrive? && s.clock <= step.at
    ensures Waits(Next(s, step), i, row, if step.due < row.nextRetryAt then k + 1 else k)
  {
    var s', n := Next(s, step), |s.rows|;
    AheadAfterArrival(s, step, i);
    assert n !in Ahead(s, i);
  }

  lemma AheadAfterArrival(s: State, step: Step, i: nat)
    requires Inv(s) && step.Arrive? && s.clock <= step.at && i < |s.rows|
    ensures Ahead(Next(s, step), i)
         == if step.due < s.rows[i].nextRetryAt then Ahead(s, i) + {|s.rows|} else Ahead(s, i)
  {
    var s', n := Next(s, step), |s.rows|;
    assert forall d | d in s.batch :: d.id < n;
    assert n !in BatchIds(s.batch);
    assert forall j: nat | j < n :: s'.rows[j] == s.rows[j];
    assert s'.rows[n].nextRetryAt == step.due;
  }

  lemma ArriveKeepsClear(s: State, step: Step, i: nat, row: Delivery)
    requires Shape(s) && i < |s.rows| && s.rows[i] == row && Clear(s, i)
    requires step.Arrive? && (Overtakes(step, row) ==> step.parses)
    ensures Clear(Next(s, step), i)
  {
    var s' := Next(s, step);
    forall u: nat ensures !Bars(s', u, i) {
      assert !Bars(s, u, i);
    }
  }

  lemma AttemptKeepsWaiting(s: State, step: Step, i: nat, row: Delivery, k: nat)
    requires Inv(s) && Waits(s, i, row, k) && Clear(s, i)
    requires step.Attempt? && step.stored && Enabled(s, step)
    ensures Waits(Next(s, step), i, row, k)
  {
    var s', d := Next(s, step), s.batch[0];
    assert d in s.batch && d.id in BatchIds(s.batch);
    assert s.batch == [d] + s.batch[1..];
    assert forall e | e in s.batch[1..] :: e.id != d.id;
    assert BatchIds(s.batch[1..]) == BatchIds(s.batch) - {d.id};
    assert !(s'.rows[d.id].status == Pending && Before(s'.rows, d.id, i));
    assert Ahead(s', i) == Ahead(s, i);
  }

  lemma AttemptKeepsClear(s: State, step: Step, i: nat)
    requires Inv(s) && i < |s.rows| && i !in BatchIds(s.batch) && Clear(s, i)
    requires step.Attempt? && Enabled(s, step)
    ensures Clear(Next(s, step), i)
  {
    var s', d := Next(s, step), s.batch[0];
    assert d in s.batch && d.id in BatchIds(s.batch);
    forall u: nat ensures !Bars(s', u, i) {
      assert !Bars(s, u, i);
    }
    assert forall e | e in s'.batch :: e in s.batch;
  }

  function Elements(xs: seq<nat>): set<nat> {
    set x | x in xs
  }

  lemma {:induction false} ElementsCount(xs: seq<nat>)
    requires forall a, b | 0 <= a < b < |xs| :: xs[a] != xs[b]
    ensures |Elements(xs)| == |xs|
  {
    if xs != [] {
      var n := |xs| - 1;
      ElementsCount(xs[..n]);
      assert Elements(xs) == Elements(xs[..n]) + {xs[n]};
      assert xs[n] !in xs[..n];
    }
  }

  /** In the order of selection, the rows in front of a due row are exactly the pending rows before it. */
  lemma PositionOf(s: State, at: real, i: nat) returns (p: nat)
    requires s.batch == [] && i < |s.rows| && IsDue(s.rows[i], at)
    ensures var ids := SortedDue(s.rows, at, |s.rows|);
            p < |ids| && ids[p] == i && Elements(ids[..p]) == Ahead(s, i) && |Ahead(s, i)| == p
  {
    var ids := SortedDue(s.rows, at, |s.rows|);
    assert i in ids;
    p :| 0 <= p < |ids| && ids[p] == i;
    forall j: nat ensures j in Elements(ids[..p]) <==> j in Ahead(s, i) {
      if j in Ahead(s, i) {
        assert IsDue(s.rows[j], at) && j in ids;
        var q :| 0 <= q < |ids| && ids[q] == j;
        assert q < p;
        assert ids[..p][q] == j;
      }
    }
    ElementsCount(ids[..p]);
  }

  lemma SelectedIds(rows: seq<Delivery>, at: real, limit: nat)
    ensures BatchIds(SelectDue(rows, at, limit)) == Elements(Take(SortedDue(rows, at, |rows|), limit))
  {
    var ids, batch := Take(SortedDue(rows, at, |rows|), limit), SelectDue(rows, at, limit);
    assert forall k | 0 <= k < |ids| :: batch[k] in batch && batch[k].id == ids[k];
  }

  lemma DropFront(ids: seq<nat>, b: nat, p: nat)
    requires b <= p < |ids| && forall x, y | 0 <= x < y < |ids| :: ids[x] != ids[y]
    ensures ids[p] !in Elements(ids[..b])
    ensures |Elements(ids[..p]) - Elements(ids[..b])| == p - b
  {
    var front, rest := ids[..b], ids[b..p];
    assert ids[..p] == front + rest;
    forall x | x in Elements(rest) ensures x !in Elements(front) {
      var k :| 0 <= k < |rest| && rest[k] == x;
      assert ids[b + k] == x;
    }
    assert Elements(ids[..p]) - Elements(front) == Elements(rest);
    ElementsCount(rest);
  }

  lemma AheadAfterSelect(s: State, at: real, i: nat)
    requires Shape(s) && s.batch == [] && s.clock <= at && i < |s.rows|
    ensures var s' := Next(s, Select(at));
            s'.rows == s.rows && Ahead(s', i) == Ahead(s, i) - BatchIds(s'.batch)
  {
  }

  lemma SortedDueDistinct(rows: seq<Delivery>, at: real)
    ensures var ids := SortedDue(rows, at, |rows|);
            forall x, y | 0 <= x < y < |ids| :: ids[x] != ids[y]
  {
    var ids := SortedDue(rows, at, |rows|);
    assert forall x, y | 0 <= x < y < |ids| :: Before(rows, ids[x], ids[y]);
  }

  /** A tick takes exactly `BATCH` rows from in front of a waiting row, or the row itself. */
  lemma SelectAdvances(s: State, at: real, i: nat, row: Delivery, k: nat)
    requires Shape(s) && Waits(s, i, row, k) && s.batch == [] && s.clock <= at
    ensures var s' := Next(s, Select(at));
            if k < BATCH then s'.rows == s.rows && i in BatchIds(s'.batch) else Waits(s', i, row, k - BATCH)
  {
    var s', ids := Next(s, Select(at)), SortedDue(s.rows, at, |s.rows|);
    var p := PositionOf(s, at, i);
    SelectedIds(s.rows, at, BATCH);
    if p < BATCH {
      assert ids[p] in Take(ids, BATCH);
    } else {
      SortedDueDistinct(s.rows, at);
      DropFront(ids, BATCH, p);
      AheadAfterSelect(s, at, i);
      assert Take(ids, BATCH) == ids[..BATCH];
    }
  }

  /** If nothing bars the row, the tick's batch does not panic before it. */
  lemma SelectKeepsClear(s: State, at: real, i: nat, row: Delivery, k: nat)
    requires Shape(s) && Waits(s, i, row, k) && s.batch == [] && s.clock <= at && Clear(s, i)
    ensures var s' := Next(s, Select(at));
            if k < BATCH then exists p: nat :: Reaches(s', p, i) else Clear(s', i)
  {
    var s', ids := Next(s, Select(at)), SortedDue(s.rows, at, |s.rows|);
    var p := PositionOf(s, at, i);
    forall q: nat | q <= p ensures s.rows[ids[q]].parses {
      assert ids[q] in ids && !Bars(s, ids[q], i);
    }
    if p < BATCH {
      assert forall q: nat | q <= p :: s'.batch[q].id == ids[q];
      assert Reaches(s', p, i);
    } else {
      forall d | d in s'.batch ensures s'.rows[d.id].parses {
        var q :| 0 <= q < |s'.batch| && s'.batch[q] == d;
        assert d.id == ids[q];
      }
      forall u: nat ensures !Bars(s', u, i) {
        assert !Bars(s, u, i);
      }
    }
  }

  /** Nothing up to row `i` in the dispatcher's batch panics. */
  predicate Reaches(s: State, p: nat, i: nat)
    requires Shape(s)
  {
    && p < |s.batch| && s.batch[p].id == i
    && forall q | 0 <= q <= p :: s.batch[q] in s.batch && s.rows[s.batch[q].id].parses
  }

  ghost predicate InHand(s: State, i: nat, row: Delivery, tries: nat) {
    && Shape(s) && i < |s.rows| && s.rows[i] == row && |s.audits[i].tries| == tries
    && exists p: nat :: Reaches(s, p, i)
  }

  /** A selected row that is reached stays so until its own attempt, and no new tick starts before. */
  lemma InHandStep(s: State, step: Step, i: nat, row: Delivery, tries: nat)
    requires Inv(s) && InHand(s, i, row, tries) && Steady(step)
    ensures !(step.Select? && Enabled(s, step))
    ensures var s' := Next(s, step); InHand(s', i, row, tries) || |s'.audits[i].tries| > tries
  {
    var p: nat :| Reaches(s, p, i);
    var s' := Next(s, step);
    if Enabled(s, step) && step.Attempt? {
      assert s.rows[s.batch[0].id].parses;
      if p > 0 {
        assert s.batch[0].id != s.batch[p].id;
        assert Reaches(s', p - 1, i) by {
          assert forall q | 0 <= q <= p - 1 :: s'.batch[q] == s.batch[q + 1];
        }
      }
    } else {
      assert Reaches(s', p, i);
    }
  }

  lemma TriesGrow(s: State, step: Step, i: nat)
    requires Shape(s) && i < |s.rows|
    ensures |s.audits[i].tries| <= |Next(s, step).audits[i].tries|
  {
  }

  ghost predicate Selected(s: State, i: nat, row: Delivery, tries: nat) {
    Shape(s) && i < |s.rows| && (InHand(s, i, row, tries) || |s.audits[i].tries| > tries)
  }

  ghost predicate Waiting(s: State, i: nat, row: Delivery, tries: nat, ahead: nat) {
    Shape(s) && Waits(s, i, row, ahead) && |s.audits[i].tries| == tries && Clear(s, i)
  }

  /**
   Where a row stands that had `k` rows ahead of it, `ticks` ticks and `late` overtakers later: it still waits, every
   tick having taken fifty from in front of it, or it has been selected, by a tick that had that few to take.
   */
  ghost predicate Progress(s: State, i: nat, row: Delivery, tries: nat, k: nat, late: nat, ticks: nat) {
    || (BATCH * ticks <= k + late && Waiting(s, i, row, tries, k + late - BATCH * ticks))
    || (BATCH * ticks > k && Selected(s, i, row, tries))
  }

  lemma SelectedStep(s: State, step: Step, i: nat, row: Delivery, tries: nat)
    requires Inv(s) && Selected(s, i, row, tries) && Steady(step)
    ensures Selected(Next(s, step), i, row, tries)
  {
    if InHand(s, i, row, tries) {
      InHandStep(s, step, i, row, tries);
    } else {
      TriesGrow(s, step, i);
    }
  }

  lemma WaitingStep(s: State, step: Step, i: nat, row: Delivery, tries: nat, ahead: nat)
    requires Inv(s) && Waiting(s, i, row, tries, ahead) && Enabled(s, step)
    requires Steady(step) && (Overtakes(step, row) ==> step.parses)
    ensures var s' := Next(s, step);
            if step.Select? && ahead < BATCH then Selected(s', i, row, tries)
            else
              var now := if step.Select? then ahead - BATCH else if Overtakes(step, row) then ahead + 1 else ahead;
              Waiting(s', i, row, tries, now)
  {
    match step
    case Arrive(_, _, _) =>
      ArriveKeepsWaiting(s, step, i, row, ahead);
      ArriveKeepsClear(s, step, i, row);
    case Select(at) =>
      SelectAdvances(s, at, i, row, ahead);
      SelectKeepsClear(s, at, i, row, ahead);
    case Attempt(_, _, _) =>
      AttemptKeepsWaiting(s, step, i, row, ahead);
      AttemptKeepsClear(s, step, i);
      assert s.batch[0] in s.batch;
  }

  lemma ProgressStep(s: State, step: Step, i: nat, row: Delivery, tries: nat, k: nat, late: nat, ticks: nat)
    requires Inv(s) && Progress(s, i, row, tries, k, late, ticks)
    requires Steady(step) && (Overtakes(step, row) ==> step.parses)
    ensures Progress(Next(s, step), i, row, tries, k,
                     late + (if Overtakes(step, row) && Enabled(s, step) then 1 else 0),
                     ticks + if step.Select? && Enabled(s, step) then 1 else 0)
  {
    if Enabled(s, step) {
      if BATCH * ticks > k && Selected(s, i, row, tries) {
        SelectedStep(s, step, i, row, tries);
      } else {
        WaitingStep(s, step, i, row, tries, k + late - BATCH * ticks);
      }
    }
  }

  /**
   No starvation while nothing bars the row, and the exact tick: a due row with `k` pending rows in front of it is
   selected by no tick before number k/50 + 1, and by tick (k + late)/50 + 1 at the latest, where `late` rows have
   arrived with an earlier retry time; whatever else arrives, panics later in the batch or is rescheduled meanwhile.
   */
  lemma {:induction false} NoStarvation(s: State, steps: seq<Step>, i: nat, row: Delivery, k: nat)
    requires Inv(s) && Waits(s, i, row, k) && Clear(s, i) && Smooth(steps, row)
    ensures var s', tries := Run(s, steps), |s.audits[i].tries|;
            var ticks, late := Ticks(s, steps), Overtakers(s, steps, row);
            && Progress(s', i, row, tries, k, late, ticks)
            && (ticks <= k / BATCH ==> Waits(s', i, row, k + late - BATCH * ticks))
            && (ticks > (k + late) / BATCH ==> Selected(s', i, row, tries))
  {
    if steps != [] {
      var n := |steps| - 1;
      NoStarvation(s, steps[..n], i, row, k);
      Lifecycle(s, steps[..n]);
      assert steps[n] in steps;
      ProgressStep(Run(s, steps[..n]), steps[n], i, row, |s.audits[i].tries|, k,
                   Overtakers(s, steps[..n], row), Ticks(s, steps[..n]));
    }
  }

  /** Once tick (k + late)/50 + 1 has worked off its batch, the row has been attempted. */
  lemma AttemptedInTime(s: State, steps: seq<Step>, i: nat, k: nat)
    requires Inv(s) && i < |s.rows| && Waits(s, i, s.rows[i], k) && Clear(s, i) && Smooth(steps, s.rows[i])
    requires Ticks(s, steps) > (k + Overtakers(s, steps, s.rows[i])) / BATCH && i !in BatchIds(Run(s, steps).batch)
    ensures |Run(s, steps).audits[i].tries| > |s.audits[i].tries|
  {
    NoStarvation(s, steps, i, s.rows[i], k);
  }

  // ---------------------------------------------------------------- a URL that does not parse

  /** Row `u` bars row `i`, and goes before it in the dispatcher's batch too. */
  ghost predicate Barred(s: State, u: nat, i: nat) {
    && Shape(s) && Bars(s, u, i)
    && forall p | 0 <= p < |s.batch| && s.batch[p].id == i :: exists q :: 0 <= q <= p && s.batch[q].id == u
  }

  /** The step handles row `u` and finds its endpoint. */
  predicate FindsEndpoint(s: State, step: Step, u: nat) {
    step.Attempt? && s.batch != [] && s.batch[0].id == u ==> !step.reply.NoEndpoint?
  }

  lemma SelectKeepsBarred(s: State, at: real, u: nat, i: nat)
    requires Barred(s, u, i) && s.batch == [] && s.clock <= at
    ensures Barred(Next(s, Select(at)), u, i)
  {
    var s', ids := Next(s, Select(at)), SortedDue(s.rows, at, |s.rows|);
    forall p | 0 <= p < |s'.batch| && s'.batch[p].id == i
      ensures exists q :: 0 <= q <= p && s'.batch[q].id == u
    {
      assert ids[p] == i && ids[p] in ids;
      assert IsDue(s.rows[u], at) && u in ids;
      var q :| 0 <= q < |ids| && ids[q] == u;
      assert q <= p;
      assert s'.batch[q].id == u;
    }
  }

  lemma AttemptKeepsBarred(s: State, step: Step, u: nat, i: nat)
    requires Barred(s, u, i) && step.Attempt? && Enabled(s, step) && FindsEndpoint(s, step, u)
    ensures var s' := Next(s, step);
            Barred(s', u, i) && s'.rows[u] == s.rows[u] && s'.rows[i] == s.rows[i] && s'.audits[i] == s.audits[i]
  {
    var s', d := Next(s, step), s.batch[0];
    if d.id != u && !Panics(s.rows[d.id], step.reply) {
      assert d.id != i;
      forall p | 0 <= p < |s'.batch| && s'.batch[p].id == i
        ensures exists q :: 0 <= q <= p && s'.batch[q].id == u
      {
        assert s.batch[p + 1].id == i;
        var q :| 0 <= q <= p + 1 && s.batch[q].id == u;
        assert s'.batch[q - 1].id == u;
      }
    }
  }

  lemma StepKeepsBarred(s: State, step: Step, u: nat, i: nat)
    requires Barred(s, u, i) && FindsEndpoint(s, step, u)
    ensures var s' := Next(s, step);
            Barred(s', u, i) && s'.rows[u] == s.rows[u] && s'.rows[i] == s.rows[i] && s'.audits[i] == s.audits[i]
  {
    if Enabled(s, step) {
      match step
      case Select(at) => SelectKeepsBarred(s, at, u, i);
      case Attempt(_, _, _) => AttemptKeepsBarred(s, step, u, i);
      case Arrive(_, _, _) => assert Before(s.rows, u, i) == Before(Next(s, step).rows, u, i);
      case Restart(_) =>
    }
  }

  /**
   A pending row whose URL does not parse, and every row behind it, is never attempted in any run, restarts, lost
   updates and arrivals included, as long as its endpoint is found: each time it is reached the process panics.
   */
  lemma {:induction false} BarredForever(s: State, steps: seq<Step>, u: nat, i: nat)
    requires Barred(s, u, i) && forall n: nat | n < |steps| :: FindsEndpoint(Run(s, steps[..n]), steps[n], u)
    ensures var s' := Run(s, steps);
            Barred(s', u, i) && s'.rows[u] == s.rows[u] && s'.rows[i] == s.rows[i] && s'.audits[i] == s.audits[i]
  {
    if steps != [] {
      var n := |steps| - 1;
      forall m: nat | m < n ensures FindsEndpoint(Run(s, steps[..n][..m]), steps[..n][m], u) {
        assert steps[..n][..m] == steps[..m];
      }
      BarredForever(s, steps[..n], u, i);
      StepKeepsBarred(Run(s, steps[..n]), steps[n], u, i);
    }
  }

  /** Two rows arrive, the first with a URL that does not parse: neither is delivered, failed or dead-lettered, ever. */
  lemma UnparsableUrlBlocks(steps: seq<Step>)
    requires var s := Run(EMPTY, [Arrive(0.0, 0.0, false), Arrive(0.0, 0.0, true)]);
             forall n: nat | n < |steps| :: FindsEndpoint(Run(s, steps[..n]), steps[n], 0)
    ensures var s' := Run(Run(EMPTY, [Arrive(0.0, 0.0, false), Arrive(0.0, 0.0, true)]), steps);
            && |s'.rows| >= 2 && s'.rows[0] == Delivery(Pending, 0, 0.0, false)
            && s'.rows[1] == Delivery(Pending, 0, 0.0, true) && s'.audits[1] == Audit(0, 0, [], [])
  {
    var first, second := Arrive(0.0, 0.0, false), Arrive(0.0, 0.0, true);
    assert [first, second][..1] == [first] && [first][..0] == [];
    var one := Run(EMPTY, [first]);
    assert one == Next(Run(EMPTY, []), first);
    var s := Run(EMPTY, [first, second]);
    assert s == Next(one, second);
    assert Barred(s, 0, 1);
    BarredForever(s, steps, 0, 1);
  }

  lemma RunSnoc(s: State, steps: seq<Step>, step: Step)
    requires Shape(s)
    ensures Run(s, steps + [step]) == Next(Run(s, steps), step)
    ensures Ticks(s, steps + [step])
         == Ticks(s, steps) + if step.Select? && Enabled(Run(s, steps), step) then 1 else 0
  {
    assert (steps + [step])[..|steps|] == steps;
  }

  /** Steps by which the dispatcher ticks on: selections, and attempts that get a response. */
  predicate Ticking(steps: seq<Step>) {
    forall step | step in steps :: step.Select? || (step.Attempt? && step.stored && step.reply == Response(200))
  }

  /** From any point the dispatcher works off its batch, or panics. */
  lemma {:induction false} WorksOff(s: State, steps: seq<Step>) returns (more: seq<Step>)
    requires Shape(s) && Ticking(steps)
    ensures Ticking(more) && Run(s, more).batch == [] && Ticks(s, more) == Ticks(s, steps)
    decreases |Run(s, steps).batch|
  {
    var s' := Run(s, steps);
    if s'.batch == [] {
      return steps;
    }
    var step := Attempt(Response(200), s'.clock, true);
    RunSnoc(s, steps, step);
    more := WorksOff(s, steps + [step]);
  }

  lemma {:induction false} TicksOn(s: State, n: nat) returns (steps: seq<Step>)
    requires Shape(s) && s.batch == []
    ensures Ticking(steps) && Run(s, steps).batch == [] && Ticks(s, steps) == n
  {
    steps := [];
    if n > 0 {
      steps := TicksOn(s, n - 1);
      var step := Select(Run(s, steps).clock);
      RunSnoc(s, steps, step);
      steps := WorksOff(s, steps + [step]);
    }
  }

  lemma {:induction false} TickingOvertakesNothing(s: State, steps: seq<Step>, row: Delivery)
    requires Shape(s) && Ticking(steps)
    ensures Overtakers(s, steps, row) == 0 && Smooth(steps, row)
  {
    if steps != [] {
      var n := |steps| - 1;
      assert steps[n] in steps;
      TickingOvertakesNothing(s, steps[..n], row);
    }
  }

  /** Row `i`, with `k` rows ahead, is attempted by tick (k + late)/50 + 1 of every smooth run. */
  ghost predicate Assured(s: State, i: nat, k: nat)
    requires Shape(s) && i < |s.rows|
  {
    forall steps: seq<Step> |
      && Smooth(steps, s.rows[i]) && Ticks(s, steps) > (k + Overtakers(s, steps, s.rows[i])) / BATCH
      && i !in BatchIds(Run(s, steps).batch) ::
        |Run(s, steps).audits[i].tries| > |s.audits[i].tries|
  }

  /** Between ticks, a due row is sure to be attempted in time exactly when no row whose URL does not parse bars it. */
  lemma AttemptedExactlyWhen(s: State, i: nat, k: nat)
    requires Inv(s) && s.batch == [] && i < |s.rows| && Waits(s, i, s.rows[i], k)
    ensures Assured(s, i, k) <==> forall u: nat :: !Bars(s, u, i)
  {
    if u: nat :| Bars(s, u, i) {
      var steps := TicksOn(s, k / BATCH + 1);
      TickingOvertakesNothing(s, steps, s.rows[i]);
      assert forall n: nat | n < |steps| :: steps[n] in steps;
      BarredForever(s, steps, u, i);
      assert i !in BatchIds(Run(s, steps).batch);
    } else {
      forall steps: seq<Step> |
        && Smooth(steps, s.rows[i]) && Ticks(s, steps) > (k + Overtakers(s, steps, s.rows[i])) / BATCH
        && i !in BatchIds(Run(s, steps).batch)
        ensures |Run(s, steps).audits[i].tries| > |s.audits[i].tries|
      {
        AttemptedInTime(s, steps, i, k);
      }
    }
  }

  // ---------------------------------------------------------------- the tick method is such a run

  function Attempts(oracle: nat -> (Reply, real), from: nat, to: nat): seq<Step>
    requires from <= to
  {
    seq(to - from, k requires 0 <= k < to - from => Attempt(oracle(from + k).0, oracle(from + k).1, true))
  }

  /** After some of the attempts of a batch: on its way, or done because one of them panicked. */
  ghost predicate Underway(s: State, batch: seq<Due>, oracle: nat -> (Reply, real), n: nat, goal: seq<Delivery>) {
    && Shape(s) && n <= |batch| && (forall d | d in batch :: d.id < |s.rows|)
    && ((s.batch == batch[n..] && DeliverAll(s.rows, batch, oracle, n).0 == goal) || (s.batch == [] && s.rows == goal))
  }

  lemma AttemptDeliversOne(s: State, batch: seq<Due>, oracle: nat -> (Reply, real), m: nat, goal: seq<Delivery>)
    requires Underway(s, batch, oracle, m, goal) && m < |batch| && s.clock <= oracle(m).1
    ensures var s' := Next(s, Attempt(oracle(m).0, oracle(m).1, true));
            Underway(s', batch, oracle, m + 1, goal) && s'.clock <= oracle(m).1
  {
    if s.batch != [] {
      assert s.batch[0] == batch[m] && batch[m..][1..] == batch[m + 1..];
    }
  }

  /** An undisturbed run of attempts, at a clock that does not go back, leaves the rows that the tick's loop leaves. */
  lemma {:induction false} AttemptsDeliverAll(s: State, batch: seq<Due>, oracle: nat -> (Reply, real), n: nat)
    requires Shape(s) && s.batch == batch && n <= |batch|
    requires forall k: nat | k < |batch| :: s.clock <= oracle(k).1
    requires forall j: nat, k: nat | j <= k < |batch| :: oracle(j).1 <= oracle(k).1
    ensures var s' := Run(s, Attempts(oracle, 0, n));
            && Underway(s', batch, oracle, n, DeliverAll(s.rows, batch, oracle, 0).0)
            && (n < |batch| ==> s'.clock <= oracle(n).1)
  {
    if n > 0 {
      var m := n - 1;
      AttemptsDeliverAll(s, batch, oracle, m);
      var steps := Attempts(oracle, 0, n);
      assert steps[..m] == Attempts(oracle, 0, m) && steps[m] == Attempt(oracle(m).0, oracle(m).1, true);
      AttemptDeliversOne(Run(s, steps[..m]), batch, oracle, m, DeliverAll(s.rows, batch, oracle, 0).0);
    }
  }

  function Arrivals(now: real, drained: seq<(real, bool)>): seq<Step> {
    seq(|drained|, k requires 0 <= k < |drained| => Arrive(now, drained[k].0, drained[k].1))
  }

  lemma {:induction false} ArrivalsAppend(s: State, now: real, drained: seq<(real, bool)>)
    requires Shape(s) && s.clock <= now
    ensures var s' := Run(s, Arrivals(now, drained));
            s'.rows == s.rows + Fresh(drained) && s'.batch == s.batch && s'.clock <= now
  {
    if drained == [] {
      assert s.rows + Fresh(drained) == s.rows;
    } else {
      var n := |drained| - 1;
      ArrivalsAppend(s, now, drained[..n]);
      var steps := Arrivals(now, drained);
      assert steps[..n] == Arrivals(now, drained[..n]) && steps[n] == Arrive(now, drained[n].0, drained[n].1);
      assert Fresh(drained) == Fresh(drained[..n]) + [Delivery(Pending, 0, drained[n].0, drained[n].1)];
    }
  }

  /** A tick is its drain's arrivals and, unless the selection fails, a selection and an attempt per selected row. */
  lemma TickIsRun(s: State, drained: seq<(real, bool)>, now: real, oracle: nat -> (Reply, real))
    requires Shape(s) && s.batch == [] && s.clock <= now
    requires forall k: nat | k < BATCH :: now <= oracle(k).1
    requires forall j: nat, k: nat | j <= k < BATCH :: oracle(j).1 <= oracle(k).1
    ensures var arrived := Run(s, Arrivals(now, drained));
            var batch := SelectDue(arrived.rows, now, BATCH);
            && arrived.batch == [] && arrived.rows == s.rows + Fresh(drained)
            && |batch| <= BATCH && (forall d | d in batch :: d.id < |arrived.rows|)
            && var s' := Run(Next(arrived, Select(now)), Attempts(oracle, 0, |batch|));
               s'.batch == [] && s'.rows == DeliverAll(arrived.rows, batch, oracle, 0).0
  {
    ArrivalsAppend(s, now, drained);
    var started := Next(Run(s, Arrivals(now, drained)), Select(now));
    AttemptsDeliverAll(started, started.batch, oracle, |started.batch|);
  }
}
