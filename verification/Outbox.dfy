/**
 The transactional outbox: rows recorded with a call outcome, drained into deliveries by any number of
 concurrent transactions that claim rows with SKIP LOCKED and either commit as a whole or roll back.

 A row's index is its serial id. A claimed row stays locked until its transaction ends; each endpoint
 lookup sees what is committed at that moment; a transaction's inserts and marks appear at its commit.
 */
module Outbox {
  import opened Options

  datatype Row = Row(org: string, event: string, payload: string, dispatched: bool)

  datatype Endpoint = Endpoint(org: string, url: string, events: seq<string>, active: bool)

  /** A delivery row, with the outbox row it was made from. */
  datatype Delivery = Delivery(source: nat, org: string, event: string, url: string, payload: string)

  predicate Subscribed(ep: Option<Endpoint>, event: string) {
    ep.Some? && ep.value.active && (|ep.value.events| == 0 || event in ep.value.events)
  }

  function Make(rows: seq<Row>, id: nat, ep: Endpoint): Delivery
    requires id < |rows|
  {
    Delivery(id, rows[id].org, rows[id].event, ep.url, rows[id].payload)
  }

  predicate InRange(rows: seq<Row>, ids: seq<nat>) {
    forall k | 0 <= k < |ids| :: ids[k] < |rows|
  }

  predicate Distinct(ids: seq<nat>) {
    forall a, b | 0 <= a < b < |ids| :: ids[a] != ids[b]
  }

  /** The deliveries a transaction inserts, given the endpoint it saw for each row it claimed. */
  function Made(rows: seq<Row>, ids: seq<nat>, seen: seq<Option<Endpoint>>): (ds: seq<Delivery>)
    requires InRange(rows, ids) && |seen| == |ids|
    ensures |ds| <= |ids|
  {
    if ids == [] then [] else
      var n := |ids| - 1;
      Made(rows, ids[..n], seen[..n]) +
      if Subscribed(seen[n], rows[ids[n]].event) then [Make(rows, ids[n], seen[n].value)] else []
  }

  function Marked(rows: seq<Row>, ids: seq<nat>): (r: seq<Row>)
    ensures |r| == |rows|
    ensures forall i | 0 <= i < |rows| :: r[i] == rows[i].(dispatched := rows[i].dispatched || i in ids)
  {
    seq(|rows|, i requires 0 <= i < |rows| => rows[i].(dispatched := rows[i].dispatched || i in ids))
  }

  /** The rows below `n` that a claim may take: undispatched and not locked, in id order. */
  function Claimable(rows: seq<Row>, locked: set<nat>, n: nat): (ids: seq<nat>)
    requires n <= |rows|
    ensures InRange(rows, ids) && forall a, b | 0 <= a < b < |ids| :: ids[a] < ids[b]
    ensures forall i: nat :: i in ids <==> i < n && !rows[i].dispatched && i !in locked
  {
    if n == 0 then [] else
      var ids := Claimable(rows, locked, n - 1);
      assert forall k | 0 <= k < |ids| :: ids[k] in ids;
      if !rows[n - 1].dispatched && n - 1 !in locked then ids + [n - 1] else ids
  }

  function Claim(rows: seq<Row>, locked: set<nat>, limit: nat): (ids: seq<nat>)
    ensures InRange(rows, ids) && Distinct(ids) && |ids| <= limit
    ensures forall i | i in ids :: !rows[i].dispatched && i !in locked
  {
    var ids := Claimable(rows, locked, |rows|);
    if |ids| <= limit then ids else ids[..limit]
  }

  /** A claim takes rows in id order; it leaves a row it could have taken only for lower ones, and only at the limit. */
  lemma ClaimsLowestFirst(rows: seq<Row>, locked: set<nat>, limit: nat, i: nat)
    requires i < |rows| && !rows[i].dispatched && i !in locked
    ensures var ids := Claim(rows, locked, limit);
            && (forall a, b | 0 <= a < b < |ids| :: ids[a] < ids[b])
            && (i !in ids ==> |ids| == limit && forall k | 0 <= k < |ids| :: ids[k] < i)
  {
    var all := Claimable(rows, locked, |rows|);
    assert i in all;
    var p :| 0 <= p < |all| && all[p] == i;
    if p < limit {
      assert Claim(rows, locked, limit)[p] == i;
    }
  }

  // ---------------------------------------------------------------- concurrent drainers

  /** An open transaction: the rows it holds locked, and the lookups it has made for the first of them. */
  datatype Tx = Tx(claimed: seq<nat>, seen: seq<Option<Endpoint>>)

  datatype State = State(
    rows: seq<Row>,
    deliveries: seq<Delivery>,
    endpoints: map<string, Endpoint>,
    txs: map<nat, Tx>,
    verdicts: map<nat, Option<Endpoint>>)

  /** `verdicts` remembers, for each row, the endpoint seen by the transaction that committed it. */
  const EMPTY := State([], [], map[], map[], map[])

  /**
   Record: a call outcome commits with its event. Configure: an endpoint changes. Begin: drainer `tx` claims up to
   `limit` rows. Look: it looks up the endpoint for its next row; `fails` is a lookup error, which the code treats
   as not subscribed. Commit and Abort end the transaction; an abort may come at any point.
   */
  datatype Step =
    | Record(org: string, event: string, payload: string)
    | Configure(endpoint: Endpoint)
    | Begin(tx: nat, limit: nat)
    | Look(tx: nat, fails: bool)
    | Commit(tx: nat)
    | Abort(tx: nat)

  function Locked(s: State): set<nat> {
    set t, i | t in s.txs && i in s.txs[t].claimed :: i
  }

  ghost predicate TxOk(s: State, t: Tx) {
    && InRange(s.rows, t.claimed) && Distinct(t.claimed) && |t.seen| <= |t.claimed|
    && forall k | 0 <= k < |t.claimed| :: !s.rows[t.claimed[k]].dispatched
  }

  /** What each committed row came to: nothing yet, a decision against, or exactly one delivery with its contents. */
  ghost predicate RowsOk(s: State) {
    && (forall i: nat :: i in s.verdicts <==> i < |s.rows| && s.rows[i].dispatched)
    && (forall d | d in s.deliveries ::
          && d.source in s.verdicts && Subscribed(s.verdicts[d.source], s.rows[d.source].event)
          && d == Make(s.rows, d.source, s.verdicts[d.source].value))
    && (forall i: nat | i in s.verdicts && Subscribed(s.verdicts[i], s.rows[i].event) ::
          Make(s.rows, i, s.verdicts[i].value) in s.deliveries)
    && SourcesDistinct(s.deliveries)
  }

  ghost predicate Inv(s: State) {
    && RowsOk(s)
    && (forall t | t in s.txs :: TxOk(s, s.txs[t]))
    && forall t, u, i | t in s.txs && u in s.txs && i in s.txs[t].claimed && i in s.txs[u].claimed :: t == u
  }

  function IndexOf(ids: seq<nat>, i: nat): (k: nat)
    requires i in ids
    ensures k < |ids| && ids[k] == i
  {
    if ids[0] == i then 0 else 1 + IndexOf(ids[1..], i)
  }

  function Decisions(ids: seq<nat>, seen: seq<Option<Endpoint>>): map<nat, Option<Endpoint>>
    requires |seen| == |ids|
  {
    map i | i in ids :: seen[IndexOf(ids, i)]
  }

  predicate Ready(s: State, t: Tx) {
    InRange(s.rows, t.claimed) && |t.seen| == |t.claimed|
  }

  /** A step that is not enabled changes nothing. */
  function Next(s: State, step: Step): State {
    match step
    case Record(org, event, payload) => s.(rows := s.rows + [Row(org, event, payload, false)])
    case Configure(endpoint) => s.(endpoints := s.endpoints[endpoint.org := endpoint])
    case Begin(tx, limit) =>
      if tx in s.txs then s
      else s.(txs := s.txs[tx := Tx(Claim(s.rows, Locked(s), limit), [])])
    case Look(tx, fails) =>
      if tx !in s.txs then s else
        var t := s.txs[tx];
        var k := |t.seen|;
        if k >= |t.claimed| || t.claimed[k] >= |s.rows| then s else
          var ep := if fails then None else Lookup(s.endpoints, s.rows[t.claimed[k]].org);
          s.(txs := s.txs[tx := t.(seen := t.seen + [ep])])
    case Commit(tx) =>
      if tx !in s.txs || !Ready(s, s.txs[tx]) then s else
        var t := s.txs[tx];
        s.(rows := Marked(s.rows, t.claimed),
           deliveries := s.deliveries + Made(s.rows, t.claimed, t.seen),
           txs := s.txs - {tx},
           verdicts := s.verdicts + Decisions(t.claimed, t.seen))
    case Abort(tx) => s.(txs := s.txs - {tx})
  }

  function Run(s: State, steps: seq<Step>): State {
    if steps == [] then s else Next(Run(s, steps[..|steps| - 1]), steps[|steps| - 1])
  }

  lemma DecisionAt(ids: seq<nat>, seen: seq<Option<Endpoint>>, k: nat)
    requires k < |ids| == |seen| && Distinct(ids)
    ensures ids[k] in ids && Decisions(ids, seen)[ids[k]] == seen[k]
  {
    var j := IndexOf(ids, ids[k]);
    assert j == k;
  }

  /** The claimed row at position `k` was seen subscribed, and `d` is its delivery. */
  predicate Yields(rows: seq<Row>, ids: seq<nat>, seen: seq<Option<Endpoint>>, k: nat, d: Delivery)
    requires InRange(rows, ids) && |seen| == |ids|
  {
    k < |ids| && Subscribed(seen[k], rows[ids[k]].event) && d == Make(rows, ids[k], seen[k].value)
  }

  lemma {:induction false} MadeFrom(rows: seq<Row>, ids: seq<nat>, seen: seq<Option<Endpoint>>, d: Delivery)
    returns (k: nat)
    requires InRange(rows, ids) && |seen| == |ids| && d in Made(rows, ids, seen)
    ensures Yields(rows, ids, seen, k, d)
  {
    var n := |ids| - 1;
    if d in Made(rows, ids[..n], seen[..n]) {
      k := MadeFrom(rows, ids[..n], seen[..n], d);
    } else {
      k := n;
    }
  }

  lemma {:induction false} MadeAll(rows: seq<Row>, ids: seq<nat>, seen: seq<Option<Endpoint>>, k: nat, d: Delivery)
    requires InRange(rows, ids) && |seen| == |ids| && Yields(rows, ids, seen, k, d)
    ensures d in Made(rows, ids, seen)
  {
    var n := |ids| - 1;
    if k < n {
      MadeAll(rows, ids[..n], seen[..n], k, d);
    }
  }

  predicate SourcesDistinct(ds: seq<Delivery>) {
    forall a, b | 0 <= a < b < |ds| :: ds[a].source != ds[b].source
  }

  lemma {:induction false} MadeOnce(rows: seq<Row>, ids: seq<nat>, seen: seq<Option<Endpoint>>)
    requires InRange(rows, ids) && |seen| == |ids| && Distinct(ids)
    ensures SourcesDistinct(Made(rows, ids, seen))
  {
    if ids != [] {
      var n := |ids| - 1;
      var init := Made(rows, ids[..n], seen[..n]);
      MadeOnce(rows, ids[..n], seen[..n]);
      forall d | d in init ensures d.source != ids[n] {
        var k := MadeFrom(rows, ids[..n], seen[..n], d);
        assert ids[..n][k] == ids[k];
      }
    }
  }

  // ---------------------------------------------------------------- every step keeps the invariant

  lemma BeginKeepsInv(s: State, tx: nat, limit: nat)
    requires Inv(s)
    ensures Inv(Next(s, Begin(tx, limit)))
  {
    var ids := Claim(s.rows, Locked(s), limit);
    assert forall k | 0 <= k < |ids| :: ids[k] in ids;
    assert forall t, i | t in s.txs && i in s.txs[t].claimed :: i in Locked(s);
  }

  lemma RecordKeepsInv(s: State, org: string, event: string, payload: string)
    requires Inv(s)
    ensures Inv(Next(s, Record(org, event, payload)))
  {
    var s' := Next(s, Record(org, event, payload));
    assert RowsOk(s');
  }

  lemma LookKeepsInv(s: State, tx: nat, fails: bool)
    requires Inv(s)
    ensures Inv(Next(s, Look(tx, fails)))
  {
    var s' := Next(s, Look(tx, fails));
    assert RowsOk(s');
    assert forall t | t in s'.txs :: t in s.txs && s'.txs[t].claimed == s.txs[t].claimed;
  }

  lemma CommitKeepsTxs(s: State, tx: nat)
    requires Inv(s) && tx in s.txs && Ready(s, s.txs[tx])
    ensures var s' := Next(s, Commit(tx)); forall t | t in s'.txs :: TxOk(s', s'.txs[t])
  {
    var s' := Next(s, Commit(tx));
    forall t | t in s'.txs ensures TxOk(s', s'.txs[t]) {
      assert TxOk(s, s.txs[t]);
      forall k | 0 <= k < |s.txs[t].claimed| ensures !s'.rows[s.txs[t].claimed[k]].dispatched {
        assert s.txs[t].claimed[k] in s.txs[t].claimed;
      }
    }
  }

  /** A commit decides every row it claimed, and only rows nobody had decided. */
  lemma CommitDecides(s: State, tx: nat)
    requires Inv(s) && tx in s.txs && Ready(s, s.txs[tx])
    ensures var s' := Next(s, Commit(tx));
            && (forall i: nat :: i in s'.verdicts <==> i < |s'.rows| && s'.rows[i].dispatched)
            && (forall i: nat | i in s.verdicts :: s'.verdicts[i] == s.verdicts[i] && s'.rows[i] == s.rows[i])
            && (forall k | 0 <= k < |s.txs[tx].claimed| ::
                  var i := s.txs[tx].claimed[k];
                  && i !in s.verdicts && s'.verdicts[i] == s.txs[tx].seen[k]
                  && s'.rows[i] == s.rows[i].(dispatched := true))
  {
    var s', t := Next(s, Commit(tx)), s.txs[tx];
    assert TxOk(s, t);
    UndecidedSoFar(s, t);
    DecisionsAdded(s.verdicts, t.claimed, t.seen);
    assert s'.rows == Marked(s.rows, t.claimed);
  }

  lemma DecisionsAdded(verdicts: map<nat, Option<Endpoint>>, ids: seq<nat>, seen: seq<Option<Endpoint>>)
    requires |seen| == |ids| && Distinct(ids) && forall i: nat | i in verdicts :: i !in ids
    ensures var v := verdicts + Decisions(ids, seen);
            && (forall i: nat :: i in v <==> i in verdicts || i in ids)
            && (forall i: nat | i in verdicts :: v[i] == verdicts[i])
            && forall k | 0 <= k < |ids| :: ids[k] in ids && ids[k] !in verdicts && v[ids[k]] == seen[k]
  {
    forall k | 0 <= k < |ids| ensures ids[k] in ids && Decisions(ids, seen)[ids[k]] == seen[k] {
      DecisionAt(ids, seen, k);
    }
  }

  lemma UndecidedSoFar(s: State, t: Tx)
    requires RowsOk(s) && TxOk(s, t)
    ensures forall i: nat | i in s.verdicts :: i !in t.claimed
  {
    forall i: nat | i in s.verdicts ensures i !in t.claimed {
      assert s.rows[i].dispatched;
    }
  }

  lemma MakeIgnoresMark(rows: seq<Row>, ids: seq<nat>, i: nat, ep: Endpoint)
    requires i < |rows|
    ensures Make(Marked(rows, ids), i, ep) == Make(rows, i, ep) && Marked(rows, ids)[i].event == rows[i].event
  {
  }

  /** Every delivery present after a commit is the one its row's decision calls for. */
  lemma CommitDeliveriesSound(s: State, tx: nat, d: Delivery)
    requires Inv(s) && tx in s.txs && Ready(s, s.txs[tx]) && d in Next(s, Commit(tx)).deliveries
    ensures var s' := Next(s, Commit(tx));
            && d.source in s'.verdicts && d.source < |s'.rows|
            && Subscribed(s'.verdicts[d.source], s'.rows[d.source].event)
            && d == Make(s'.rows, d.source, s'.verdicts[d.source].value)
            && (d in s.deliveries <==> d.source in s.verdicts)
  {
    var t := s.txs[tx];
    CommitDecides(s, tx);
    if d !in s.deliveries {
      var k := MadeFrom(s.rows, t.claimed, t.seen, d);
      MakeIgnoresMark(s.rows, t.claimed, t.claimed[k], t.seen[k].value);
    } else {
      MakeIgnoresMark(s.rows, t.claimed, d.source, s.verdicts[d.source].value);
    }
  }

  lemma CommitDeliveriesComplete(s: State, tx: nat, i: nat)
    requires Inv(s) && tx in s.txs && Ready(s, s.txs[tx])
    requires var s' := Next(s, Commit(tx));
             i < |s'.rows| && i in s'.verdicts && Subscribed(s'.verdicts[i], s'.rows[i].event)
    ensures var s' := Next(s, Commit(tx)); Make(s'.rows, i, s'.verdicts[i].value) in s'.deliveries
  {
    var s', t := Next(s, Commit(tx)), s.txs[tx];
    CommitDecides(s, tx);
    MakeIgnoresMark(s.rows, t.claimed, i, s'.verdicts[i].value);
    if i !in s.verdicts {
      assert i in t.claimed;
      var k :| 0 <= k < |t.claimed| && t.claimed[k] == i;
      MadeAll(s.rows, t.claimed, t.seen, k, Make(s.rows, i, t.seen[k].value));
    }
  }

  lemma DistinctConcat(xs: seq<Delivery>, ys: seq<Delivery>)
    requires SourcesDistinct(xs) && SourcesDistinct(ys)
    requires forall x, y | x in xs && y in ys :: x.source != y.source
    ensures SourcesDistinct(xs + ys)
  {
    var all := xs + ys;
    forall a, b | 0 <= a < b < |all| ensures all[a].source != all[b].source {
      if a < |xs| <= b {
        assert all[a] in xs && all[b] in ys;
      }
    }
  }

  lemma CommitKeepsInv(s: State, tx: nat)
    requires Inv(s)
    ensures Inv(Next(s, Commit(tx)))
  {
    if tx in s.txs && Ready(s, s.txs[tx]) {
      var s', t := Next(s, Commit(tx)), s.txs[tx];
      CommitKeepsTxs(s, tx);
      CommitDecides(s, tx);
      var made := Made(s.rows, t.claimed, t.seen);
      MadeOnce(s.rows, t.claimed, t.seen);
      forall x, y | x in s.deliveries && y in made ensures x.source != y.source {
        var k := MadeFrom(s.rows, t.claimed, t.seen, y);
      }
      DistinctConcat(s.deliveries, made);
      forall d | d in s'.deliveries
        ensures d.source in s'.verdicts && Subscribed(s'.verdicts[d.source], s'.rows[d.source].event)
             && d == Make(s'.rows, d.source, s'.verdicts[d.source].value)
      {
        CommitDeliveriesSound(s, tx, d);
      }
      forall i: nat | i in s'.verdicts && Subscribed(s'.verdicts[i], s'.rows[i].event)
        ensures Make(s'.rows, i, s'.verdicts[i].value) in s'.deliveries
      {
        CommitDeliveriesComplete(s, tx, i);
      }
    }
  }

  lemma StepKeepsInv(s: State, step: Step)
    requires Inv(s)
    ensures Inv(Next(s, step))
  {
    match step
    case Record(org, event, payload) => RecordKeepsInv(s, org, event, payload);
    case Configure(_) =>
      assert RowsOk(Next(s, step));
    case Begin(tx, limit) => BeginKeepsInv(s, tx, limit);
    case Look(tx, fails) => LookKeepsInv(s, tx, fails);
    case Commit(tx) => CommitKeepsInv(s, tx);
    case Abort(tx) =>
      assert RowsOk(Next(s, step));
  }

  /** Nothing committed is ever taken back: rows keep their contents, decisions and deliveries stay. */
  ghost predicate Extends(s: State, s': State) {
    && |s.rows| <= |s'.rows|
    && (forall i | 0 <= i < |s.rows| ::
          && s'.rows[i] == s.rows[i].(dispatched := s'.rows[i].dispatched)
          && (s.rows[i].dispatched ==> s'.rows[i].dispatched))
    && (forall i | i in s.verdicts :: i in s'.verdicts && s'.verdicts[i] == s.verdicts[i])
    && s.deliveries <= s'.deliveries
  }

  lemma StepExtends(s: State, step: Step)
    requires Inv(s)
    ensures Extends(s, Next(s, step))
  {
    if step.Commit? && step.tx in s.txs && Ready(s, s.txs[step.tx]) {
      CommitDecides(s, step.tx);
    }
  }

  /** Over every run, from any reachable state. */
  lemma {:induction false} RunExtends(s: State, steps: seq<Step>)
    requires Inv(s)
    ensures Inv(Run(s, steps)) && Extends(s, Run(s, steps))
  {
    if steps != [] {
      var n := |steps| - 1;
      RunExtends(s, steps[..n]);
      var mid := Run(s, steps[..n]);
      StepKeepsInv(mid, steps[n]);
      StepExtends(mid, steps[n]);
      ExtendsTrans(s, mid, Run(s, steps));
    }
  }

  lemma ExtendsTrans(a: State, b: State, c: State)
    requires Extends(a, b) && Extends(b, c)
    ensures Extends(a, c)
  {
    forall i | 0 <= i < |a.rows|
      ensures c.rows[i] == a.rows[i].(dispatched := c.rows[i].dispatched)
      ensures a.rows[i].dispatched ==> c.rows[i].dispatched
    {
      assert b.rows[i] == a.rows[i].(dispatched := b.rows[i].dispatched);
    }
  }

  /** How many deliveries were made from outbox row `i`. */
  function Copies(ds: seq<Delivery>, i: nat): nat {
    if ds == [] then 0 else Copies(ds[..|ds| - 1], i) + if ds[|ds| - 1].source == i then 1 else 0
  }

  lemma {:induction false} CopiesOfDistinct(ds: seq<Delivery>, i: nat)
    requires SourcesDistinct(ds)
    ensures Copies(ds, i) == if exists d :: d in ds && d.source == i then 1 else 0
  {
    if ds != [] {
      var n := |ds| - 1;
      CopiesOfDistinct(ds[..n], i);
      assert ds[n] in ds;
      assert forall d | d in ds :: d in ds[..n] || d == ds[n];
      assert forall d | d in ds[..n] :: d in ds;
    }
  }

  /** Endpoints, and what transactions have seen and decided by, belong to the org of the row. */
  ghost predicate Owned(s: State) {
    && (forall o | o in s.endpoints :: s.endpoints[o].org == o)
    && (forall t | t in s.txs :: SeenOwned(s.rows, s.txs[t]))
    && (forall i: nat | i in s.verdicts && i < |s.rows| && s.verdicts[i].Some? ::
          s.verdicts[i].value.org == s.rows[i].org)
  }

  ghost predicate SeenOwned(rows: seq<Row>, t: Tx) {
    forall k | 0 <= k < |t.seen| && k < |t.claimed| && t.claimed[k] < |rows| && t.seen[k].Some? ::
      t.seen[k].value.org == rows[t.claimed[k]].org
  }

  lemma LookKeepsOwned(s: State, tx: nat, fails: bool)
    requires Owned(s)
    ensures Owned(Next(s, Look(tx, fails)))
  {
  }

  lemma CommitKeepsOwned(s: State, tx: nat)
    requires Inv(s) && Owned(s) && tx in s.txs && Ready(s, s.txs[tx])
    ensures Owned(Next(s, Commit(tx)))
  {
    var s', t := Next(s, Commit(tx)), s.txs[tx];
    CommitDecides(s, tx);
    forall i: nat | i in s'.verdicts && i < |s'.rows| && s'.verdicts[i].Some?
      ensures s'.verdicts[i].value.org == s'.rows[i].org
    {
      if i !in s.verdicts {
        assert i in t.claimed;
        var k :| 0 <= k < |t.claimed| && t.claimed[k] == i;
        assert SeenOwned(s.rows, t);
      }
    }
    forall u | u in s'.txs ensures SeenOwned(s'.rows, s'.txs[u]) {
      assert SeenOwned(s.rows, s.txs[u]);
    }
  }

  lemma RecordKeepsOwned(s: State, step: Step)
    requires Inv(s) && Owned(s) && step.Record?
    ensures Owned(Next(s, step))
  {
    var s' := Next(s, step);
    forall u | u in s'.txs ensures SeenOwned(s'.rows, s'.txs[u]) {
      assert SeenOwned(s.rows, s.txs[u]) && TxOk(s, s.txs[u]);
    }
  }

  lemma StepKeepsOwned(s: State, step: Step)
    requires Inv(s) && Owned(s)
    ensures Owned(Next(s, step))
  {
    match step
    case Record(_, _, _) => RecordKeepsOwned(s, step);
    case Look(tx, fails) => LookKeepsOwned(s, tx, fails);
    case Commit(tx) =>
      if tx in s.txs && Ready(s, s.txs[tx]) {
        CommitKeepsOwned(s, tx);
      }
    case _ =>
  }

  lemma {:induction false} RunKeepsInv(steps: seq<Step>)
    ensures Inv(Run(EMPTY, steps)) && Owned(Run(EMPTY, steps))
  {
    if steps != [] {
      var n := |steps| - 1;
      RunKeepsInv(steps[..n]);
      StepKeepsInv(Run(EMPTY, steps[..n]), steps[n]);
      StepKeepsOwned(Run(EMPTY, steps[..n]), steps[n]);
    }
  }

  /** The committing transaction saw an active endpoint of the row's org, for all events or for the row's. */
  ghost predicate SawSubscriber(s: State, i: nat)
    requires i < |s.rows|
  {
    i in s.verdicts && s.verdicts[i].Some? &&
    var ep := s.verdicts[i].value;
    ep.org == s.rows[i].org && ep.active && (ep.events == [] || s.rows[i].event in ep.events)
  }

  lemma SawSubscriberIsSubscribed(s: State, i: nat)
    requires Owned(s) && i < |s.rows| && i in s.verdicts
    ensures SawSubscriber(s, i) <==> Subscribed(s.verdicts[i], s.rows[i].event)
  {
  }

  /**
   Over every interleaving of recorders, endpoint changes and drainers, with aborts anywhere: an outbox row yields
   at most one delivery; exactly one if the transaction that committed it saw an active endpoint of its org that takes
   its event; it is marked dispatched exactly when such a decision has committed; and every delivery carries the org,
   event and payload of its row, to the URL of that endpoint.
   */
  lemma AtMostOnce(steps: seq<Step>)
    ensures var s := Run(EMPTY, steps);
            && (forall i: nat | i < |s.rows| ::
                  && (s.rows[i].dispatched <==> i in s.verdicts)
                  && Copies(s.deliveries, i) == if SawSubscriber(s, i) then 1 else 0)
            && (forall d | d in s.deliveries ::
                  && d.source < |s.rows| && SawSubscriber(s, d.source) && d.url == s.verdicts[d.source].value.url
                  && d.org == s.rows[d.source].org && d.event == s.rows[d.source].event
                  && d.payload == s.rows[d.source].payload)
  {
    var s := Run(EMPTY, steps);
    RunKeepsInv(steps);
    forall i: nat | i < |s.rows| ensures Copies(s.deliveries, i) == if SawSubscriber(s, i) then 1 else 0 {
      CopiesOfDistinct(s.deliveries, i);
      if i in s.verdicts {
        SawSubscriberIsSubscribed(s, i);
        assert Subscribed(s.verdicts[i], s.rows[i].event) ==> Make(s.rows, i, s.verdicts[i].value).source == i;
      }
    }
    forall d | d in s.deliveries ensures SawSubscriber(s, d.source) {
      SawSubscriberIsSubscribed(s, d.source);
    }
  }

  /** What the recorders committed, in order. */
  function Recorded(steps: seq<Step>): seq<(string, string, string)> {
    if steps == [] then [] else
      var init, step := Recorded(steps[..|steps| - 1]), steps[|steps| - 1];
      if step.Record? then init + [(step.org, step.event, step.payload)] else init
  }

  /** The outbox holds exactly what was recorded, in order. */
  lemma {:induction false} OutboxIsRecorded(steps: seq<Step>)
    ensures var s, recorded := Run(EMPTY, steps), Recorded(steps);
            && |s.rows| == |recorded|
            && forall i | 0 <= i < |s.rows| :: (s.rows[i].org, s.rows[i].event, s.rows[i].payload) == recorded[i]
  {
    if steps != [] {
      OutboxIsRecorded(steps[..|steps| - 1]);
    }
  }

  // ---------------------------------------------------------------- the drain method

  /** What the lookups for the claimed rows return when nobody changes an endpoint; a failed lookup counts as none. */
  function Looked(rows: seq<Row>, endpoints: map<string, Endpoint>, ids: seq<nat>, fails: nat -> bool)
    : seq<Option<Endpoint>>
    requires InRange(rows, ids)
  {
    seq(|ids|, k requires 0 <= k < |ids| => if fails(k) then None else Lookup(endpoints, rows[ids[k]].org))
  }

  /** The deliveries made from the first `k` claimed rows, and the outbox with those rows marked, one by one. */
  function MadeTo(rows: seq<Row>, ids: seq<nat>, seen: seq<Option<Endpoint>>, k: nat): seq<Delivery>
    requires InRange(rows, ids) && k <= |ids| == |seen|
  {
    if k == 0 then [] else
      MadeTo(rows, ids, seen, k - 1) +
      if Subscribed(seen[k - 1], rows[ids[k - 1]].event) then [Make(rows, ids[k - 1], seen[k - 1].value)] else []
  }

  function MarkedTo(rows: seq<Row>, ids: seq<nat>, k: nat): (r: seq<Row>)
    requires InRange(rows, ids) && k <= |ids|
    ensures |r| == |rows|
  {
    if k == 0 then rows else
      var r := MarkedTo(rows, ids, k - 1);
      r[ids[k - 1] := r[ids[k - 1]].(dispatched := true)]
  }

  lemma {:induction false} MadeToIs(rows: seq<Row>, ids: seq<nat>, seen: seq<Option<Endpoint>>, k: nat)
    requires InRange(rows, ids) && k <= |ids| == |seen|
    ensures MadeTo(rows, ids, seen, k) == Made(rows, ids[..k], seen[..k])
  {
    if k > 0 {
      MadeToIs(rows, ids, seen, k - 1);
      assert ids[..k][..k - 1] == ids[..k - 1] && seen[..k][..k - 1] == seen[..k - 1];
    }
  }

  lemma {:induction false} MarkedToAt(rows: seq<Row>, ids: seq<nat>, k: nat, i: nat)
    requires InRange(rows, ids) && k <= |ids| && i < |rows|
    ensures MarkedTo(rows, ids, k)[i] == rows[i].(dispatched := rows[i].dispatched || i in ids[..k])
  {
    if k > 0 {
      MarkedToAt(rows, ids, k - 1, i);
      assert ids[..k] == ids[..k - 1] + [ids[k - 1]];
    }
  }

  lemma MarkedToAll(rows: seq<Row>, ids: seq<nat>)
    requires InRange(rows, ids)
    ensures MarkedTo(rows, ids, |ids|) == Marked(rows, ids)
  {
    forall i: nat | i < |rows| ensures MarkedTo(rows, ids, |ids|)[i] == Marked(rows, ids)[i] {
      MarkedToAt(rows, ids, |ids|, i);
      assert ids[..|ids|] == ids;
    }
  }

  /** How the statements of one drain go: whether the lookup, insert and mark of the k-th claimed row fail. */
  datatype Faults = Faults(lookups: nat -> bool, inserts: nat -> bool, marks: nat -> bool)

  predicate Wanted(rows: seq<Row>, ids: seq<nat>, seen: seq<Option<Endpoint>>, k: nat)
    requires InRange(rows, ids) && k < |ids| == |seen|
  {
    Subscribed(seen[k], rows[ids[k]].event)
  }

  /** The drain stops at the k-th claimed row: its insert, if there is one, or its mark fails. */
  predicate Stops(rows: seq<Row>, ids: seq<nat>, seen: seq<Option<Endpoint>>, faults: Faults, k: nat)
    requires InRange(rows, ids) && k < |ids| == |seen|
  {
    (Wanted(rows, ids, seen, k) && faults.inserts(k)) || faults.marks(k)
  }

  /** The first row, from `k` on, at which the drain stops, or the number of claimed rows. */
  function StopAt(rows: seq<Row>, ids: seq<nat>, seen: seq<Option<Endpoint>>, faults: Faults, k: nat): (stop: nat)
    requires InRange(rows, ids) && k <= |ids| == |seen|
    ensures k <= stop <= |ids| && (stop < |ids| ==> Stops(rows, ids, seen, faults, stop))
    ensures forall j | k <= j < stop :: !Stops(rows, ids, seen, faults, j)
    decreases |ids| - k
  {
    if k == |ids| || Stops(rows, ids, seen, faults, k) then k else StopAt(rows, ids, seen, faults, k + 1)
  }

  /** The deliveries inserted by a drain that stops at `stop`; at that row the insert may have gone through. */
  function Inserted(rows: seq<Row>, ids: seq<nat>, seen: seq<Option<Endpoint>>, faults: Faults, stop: nat)
    : seq<Delivery>
    requires InRange(rows, ids) && stop <= |ids| == |seen|
  {
    MadeTo(rows, ids, seen, stop) +
    if stop < |ids| && Wanted(rows, ids, seen, stop) && !faults.inserts(stop)
    then [Make(rows, ids[stop], seen[stop].value)] else []
  }

  /** The org of a row has an active endpoint that takes its event. */
  predicate HasSubscriber(rows: seq<Row>, endpoints: map<string, Endpoint>, i: nat)
    requires i < |rows|
  {
    && rows[i].org in endpoints && endpoints[rows[i].org].active
    && (endpoints[rows[i].org].events == [] || rows[i].event in endpoints[rows[i].org].events)
  }

  /** A delivery carries the org, event and payload of its row to the URL of the org's endpoint. */
  predicate Carries(rows: seq<Row>, endpoints: map<string, Endpoint>, d: Delivery) {
    && d.source < |rows| && HasSubscriber(rows, endpoints, d.source)
    && d.org == rows[d.source].org && d.event == rows[d.source].event && d.payload == rows[d.source].payload
    && d.url == endpoints[d.org].url
  }

  lemma WantedHasSubscriber(rows: seq<Row>, ids: seq<nat>, endpoints: map<string, Endpoint>, fails: nat -> bool, k: nat)
    requires InRange(rows, ids) && k < |ids|
    ensures var seen := Looked(rows, endpoints, ids, fails);
            && (Wanted(rows, ids, seen, k) <==> !fails(k) && HasSubscriber(rows, endpoints, ids[k]))
            && (Wanted(rows, ids, seen, k) ==>
                  Carries(rows, endpoints, Make(rows, ids[k], seen[k].value)) && seen[k].Some?)
  {
  }

  lemma {:induction false} MadeCarry(
      rows: seq<Row>, ids: seq<nat>, endpoints: map<string, Endpoint>, fails: nat -> bool, k: nat)
    requires InRange(rows, ids) && k <= |ids|
    ensures forall d | d in MadeTo(rows, ids, Looked(rows, endpoints, ids, fails), k) ::
              d.source in ids && Carries(rows, endpoints, d)
    ensures forall j | 0 <= j < k && !fails(j) && HasSubscriber(rows, endpoints, ids[j]) ::
              exists d :: d in MadeTo(rows, ids, Looked(rows, endpoints, ids, fails), k) && d.source == ids[j]
  {
    if k > 0 {
      var seen := Looked(rows, endpoints, ids, fails);
      MadeCarry(rows, ids, endpoints, fails, k - 1);
      WantedHasSubscriber(rows, ids, endpoints, fails, k - 1);
      var init, all := MadeTo(rows, ids, seen, k - 1), MadeTo(rows, ids, seen, k);
      assert forall d | d in init :: d in all;
      if Wanted(rows, ids, seen, k - 1) {
        var last := Make(rows, ids[k - 1], seen[k - 1].value);
        assert all[|init|] == last && last.source == ids[k - 1];
        assert last in all;
      }
    }
  }

  lemma InsertedCarry(rows: seq<Row>, ids: seq<nat>, endpoints: map<string, Endpoint>, faults: Faults, stop: nat)
    requires InRange(rows, ids) && stop <= |ids|
    ensures forall d | d in Inserted(rows, ids, Looked(rows, endpoints, ids, faults.lookups), faults, stop) ::
              d.source in ids && Carries(rows, endpoints, d)
  {
    MadeCarry(rows, ids, endpoints, faults.lookups, stop);
    if stop < |ids| {
      WantedHasSubscriber(rows, ids, endpoints, faults.lookups, stop);
    }
  }

  /**
   A drain that succeeds makes, from the lowest undispatched rows, a delivery for exactly those whose org has an active
   endpoint that takes the event and can be looked up; each carries its row to that endpoint; and it marks them all.
   */
  lemma DrainDelivers(rows: seq<Row>, endpoints: map<string, Endpoint>, limit: nat, faults: Faults, k: nat)
    requires var d := Drain(rows, endpoints, limit, true, faults, Works); !d.failed && k < |Claim(rows, {}, limit)|
    ensures var d, i := Drain(rows, endpoints, limit, true, faults, Works), Claim(rows, {}, limit)[k];
            && |d.rows| == |rows| && d.rows[i].dispatched
            && ((exists e :: e in d.made && e.source == i) <==> !faults.lookups(k) && HasSubscriber(rows, endpoints, i))
            && forall e | e in d.made :: Carries(rows, endpoints, e)
  {
    var ids := Claim(rows, {}, limit);
    var seen := Looked(rows, endpoints, ids, faults.lookups);
    DrainedAll(rows, ids, seen, faults);
    MadeCarry(rows, ids, endpoints, faults.lookups, |ids|);
    MadeForWanted(rows, ids, endpoints, faults.lookups, k);
    assert ids[k] in ids;
  }

  /** A drain that reports success has worked off every claimed row. */
  lemma DrainedAll(rows: seq<Row>, ids: seq<nat>, seen: seq<Option<Endpoint>>, faults: Faults)
    requires InRange(rows, ids) && |seen| == |ids| && !WorkedOff(rows, ids, seen, faults, Works).failed
    ensures var d := WorkedOff(rows, ids, seen, faults, Works);
            d.rows == Marked(rows, ids) && d.made == MadeTo(rows, ids, seen, |ids|)
  {
  }

  lemma MadeForWanted(rows: seq<Row>, ids: seq<nat>, endpoints: map<string, Endpoint>, fails: nat -> bool, k: nat)
    requires InRange(rows, ids) && Distinct(ids) && k < |ids|
    ensures (exists e :: e in MadeTo(rows, ids, Looked(rows, endpoints, ids, fails), |ids|) && e.source == ids[k])
       <==> !fails(k) && HasSubscriber(rows, endpoints, ids[k])
  {
    var seen := Looked(rows, endpoints, ids, fails);
    var made := MadeTo(rows, ids, seen, |ids|);
    MadeCarry(rows, ids, endpoints, fails, |ids|);
    MadeToIs(rows, ids, seen, |ids|);
    assert ids[..|ids|] == ids && seen[..|ids|] == seen;
    if e :| e in made && e.source == ids[k] {
      var j := MadeFrom(rows, ids, seen, e);
      assert ids[j] == ids[k];
      WantedHasSubscriber(rows, ids, endpoints, fails, k);
    }
  }

  /** Where the statements of one transaction leave it, and what they report. */
  ghost predicate DrainEnds(rows: seq<Row>, ids: seq<nat>, seen: seq<Option<Endpoint>>, faults: Faults,
                            created: nat, failed: bool, table: seq<Row>, inserted: seq<Delivery>)
    requires InRange(rows, ids) && |seen| == |ids|
  {
    var stop := StopAt(rows, ids, seen, faults, 0);
    && (failed <==> stop < |ids|) && table == MarkedTo(rows, ids, stop)
    && inserted == Inserted(rows, ids, seen, faults, stop) && created == |inserted|
  }

  /** The statements of one transaction, row by row, on its own view of the tables. */
  method DrainRows(rows: seq<Row>, ids: seq<nat>, endpoints: map<string, Endpoint>, faults: Faults)
    returns (created: nat, failed: bool, table: seq<Row>, inserted: seq<Delivery>)
    requires InRange(rows, ids)
    ensures DrainEnds(rows, ids, Looked(rows, endpoints, ids, faults.lookups), faults, created, failed, table, inserted)
    ensures forall d | d in inserted :: d.source in ids && Carries(rows, endpoints, d)
  {
    ghost var seen := Looked(rows, endpoints, ids, faults.lookups);
    InsertedCarry(rows, ids, endpoints, faults, StopAt(rows, ids, seen, faults, 0));
    created, failed, table, inserted := 0, true, rows, [];
    for k := 0 to |ids|
      invariant GotTo(rows, ids, seen, faults, k, table, inserted)
      invariant created == |inserted|
    {
      GotToNext(rows, ids, seen, faults, k, table, inserted);
      var row := rows[ids[k]];
      var ep := if faults.lookups(k) then None else Lookup(endpoints, row.org);
      assert ep == seen[k];
      if ep.Some? && ep.value.active && (|ep.value.events| == 0 || row.event in ep.value.events) {
        assert Wanted(rows, ids, seen, k);
        if faults.inserts(k) {
          return;
        }
        inserted := inserted + [Delivery(ids[k], row.org, row.event, ep.value.url, row.payload)];
        created := created + 1;
      }
      if faults.marks(k) {
        return;
      }
      table := table[ids[k] := table[ids[k]].(dispatched := true)];
    }
    failed := false;
  }

  /** The drain has worked off the first `k` claimed rows. */
  ghost predicate GotTo(rows: seq<Row>, ids: seq<nat>, seen: seq<Option<Endpoint>>, faults: Faults, k: nat,
                        table: seq<Row>, inserted: seq<Delivery>)
    requires InRange(rows, ids) && k <= |ids| == |seen|
  {
    && table == MarkedTo(rows, ids, k) && inserted == MadeTo(rows, ids, seen, k)
    && StopAt(rows, ids, seen, faults, 0) == StopAt(rows, ids, seen, faults, k)
  }

  /** It stops at row `k`, as its contract says, or gets to the next. */
  lemma GotToNext(rows: seq<Row>, ids: seq<nat>, seen: seq<Option<Endpoint>>, faults: Faults, k: nat,
                  table: seq<Row>, inserted: seq<Delivery>)
    requires InRange(rows, ids) && k < |ids| == |seen| && GotTo(rows, ids, seen, faults, k, table, inserted)
    ensures Wanted(rows, ids, seen, k) && faults.inserts(k) ==>
              DrainEnds(rows, ids, seen, faults, |inserted|, true, table, inserted)
    ensures var wanted := Wanted(rows, ids, seen, k);
            var longer := if wanted then inserted + [Make(rows, ids[k], seen[k].value)] else inserted;
            !(wanted && faults.inserts(k)) ==>
              if faults.marks(k) then DrainEnds(rows, ids, seen, faults, |longer|, true, table, longer)
              else GotTo(rows, ids, seen, faults, k + 1, table[ids[k] := table[ids[k]].(dispatched := true)], longer)
  {
  }

  /** What one drain comes to: the count and error it returns, the outbox, and the deliveries committed. */
  datatype Drained = Drained(created: nat, failed: bool, rows: seq<Row>, made: seq<Delivery>)

  /**
   One drain with nobody else in the tables. `claims` is false if the transaction does not begin or the claim fails;
   `commit` is how its commit goes. A failing insert, mark or commit rolls everything back, and so does a commit
   that is lost; one whose reply is lost takes effect although it is reported as failed.
   */
  function Drain(
      rows: seq<Row>, endpoints: map<string, Endpoint>, limit: nat, claims: bool, faults: Faults, commit: Fate): Drained
  {
    if !claims then Drained(0, true, rows, []) else
      var ids := Claim(rows, {}, limit);
      WorkedOff(rows, ids, Looked(rows, endpoints, ids, faults.lookups), faults, commit)
  }

  function WorkedOff(rows: seq<Row>, ids: seq<nat>, seen: seq<Option<Endpoint>>, faults: Faults, commit: Fate): Drained
    requires InRange(rows, ids) && |seen| == |ids|
  {
    var stop := StopAt(rows, ids, seen, faults, 0);
    var inserted := Inserted(rows, ids, seen, faults, stop);
    if stop == |ids| && !commit.Lost? then Drained(|inserted|, !commit.Works?, Marked(rows, ids), inserted)
    else Drained(|inserted|, true, rows, [])
  }

  class OutboxRepo {
    var rows: seq<Row>
    var deliveries: seq<Delivery>
    var endpoints: map<string, Endpoint>

    constructor ()
      ensures rows == [] && deliveries == [] && endpoints == map[]
    {
      rows, deliveries, endpoints := [], [], map[];
    }

    method DrainOutbox(limit: nat, claims: bool, faults: Faults, commit: Fate) returns (created: nat, failed: bool)
      modifies this`rows, this`deliveries
      ensures var d := Drain(old(rows), endpoints, limit, claims, faults, commit);
              && created == d.created && failed == d.failed
              && rows == d.rows && deliveries == old(deliveries) + d.made
      ensures var ids := Claim(old(rows), {}, limit);
              var seen := Looked(old(rows), endpoints, ids, faults.lookups);
              var stopped := exists k :: 0 <= k < |ids| && Stops(old(rows), ids, seen, faults, k);
              failed <==> !claims || stopped || !commit.Works?
    {
      if !claims {
        return 0, true;
      }
      var ids := Claim(rows, {}, limit);
      var table, inserted;
      created, failed, table, inserted := DrainRows(rows, ids, endpoints, faults);
      if failed {
        return;
      }
      MarkedToAll(rows, ids);
      if !commit.Lost? {
        rows, deliveries := table, deliveries + inserted;
      }
      failed := !commit.Works?;
    }
  }

  // ---------------------------------------------------------------- what the count returned is worth

  lemma {:induction false} MadeNothing(rows: seq<Row>, ids: seq<nat>, seen: seq<Option<Endpoint>>)
    requires InRange(rows, ids) && |seen| == |ids|
    ensures Made(rows, ids, seen) == [] <==> forall k | 0 <= k < |ids| :: !Subscribed(seen[k], rows[ids[k]].event)
  {
    if ids != [] {
      var n := |ids| - 1;
      MadeNothing(rows, ids[..n], seen[..n]);
    }
  }

  /** No claimed row up to the stop has had a delivery inserted. */
  predicate NothingInserted(rows: seq<Row>, ids: seq<nat>, seen: seq<Option<Endpoint>>, faults: Faults, stop: nat)
    requires InRange(rows, ids) && stop <= |ids| == |seen|
  {
    && (forall k | 0 <= k < stop :: !Wanted(rows, ids, seen, k))
    && (stop < |ids| && Wanted(rows, ids, seen, stop) ==> faults.inserts(stop))
  }

  /** The drain carries through: every statement works, and the commit takes effect, reported or not. */
  predicate CarriesThrough(rows: seq<Row>, ids: seq<nat>, seen: seq<Option<Endpoint>>, faults: Faults, commit: Fate)
    requires InRange(rows, ids) && |seen| == |ids|
  {
    !commit.Lost? && forall k | 0 <= k < |ids| :: !Stops(rows, ids, seen, faults, k)
  }

  lemma InsertedNothing(rows: seq<Row>, ids: seq<nat>, seen: seq<Option<Endpoint>>, faults: Faults, stop: nat)
    requires InRange(rows, ids) && stop <= |ids| == |seen|
    ensures Inserted(rows, ids, seen, faults, stop) == [] <==> NothingInserted(rows, ids, seen, faults, stop)
  {
    var ids', seen' := ids[..stop], seen[..stop];
    MadeToIs(rows, ids, seen, stop);
    MadeNothing(rows, ids', seen');
    assert forall k | 0 <= k < stop :: Wanted(rows, ids, seen, k) == Subscribed(seen'[k], rows[ids'[k]].event);
  }

  lemma CarriesThroughToTheEnd(
      rows: seq<Row>, ids: seq<nat>, seen: seq<Option<Endpoint>>, faults: Faults, commit: Fate)
    requires InRange(rows, ids) && |seen| == |ids|
    ensures CarriesThrough(rows, ids, seen, faults, commit)
       <==> StopAt(rows, ids, seen, faults, 0) == |ids| && !commit.Lost?
  {
  }

  lemma WorkedOffCounts(rows: seq<Row>, ids: seq<nat>, seen: seq<Option<Endpoint>>, faults: Faults, commit: Fate)
    requires InRange(rows, ids) && |seen| == |ids|
    ensures var d, stop := WorkedOff(rows, ids, seen, faults, commit), StopAt(rows, ids, seen, faults, 0);
            d.created == |d.made|
            <==> CarriesThrough(rows, ids, seen, faults, commit) || NothingInserted(rows, ids, seen, faults, stop)
  {
    CarriesThroughToTheEnd(rows, ids, seen, faults, commit);
    InsertedNothing(rows, ids, seen, faults, StopAt(rows, ids, seen, faults, 0));
  }

  /**
   The count a drain returns is the number of deliveries it has committed exactly when it did not get to claim, it
   carries through, or nothing had been inserted by the time it stopped.
   */
  lemma CountIsCommittedExactlyWhen(
      rows: seq<Row>, endpoints: map<string, Endpoint>, limit: nat, claims: bool, faults: Faults, commit: Fate)
    ensures var d := Drain(rows, endpoints, limit, claims, faults, commit);
            var ids := Claim(rows, {}, limit);
            var seen := Looked(rows, endpoints, ids, faults.lookups);
            var stop := StopAt(rows, ids, seen, faults, 0);
            d.created == |d.made|
            <==> || !claims
                 || CarriesThrough(rows, ids, seen, faults, commit)
                 || NothingInserted(rows, ids, seen, faults, stop)
  {
    var ids := Claim(rows, {}, limit);
    WorkedOffCounts(rows, ids, Looked(rows, endpoints, ids, faults.lookups), faults, commit);
  }

  const ONE_ROW := [Row("org", "call.completed", "{}", false)]
  const LISTENER := Endpoint("org", "https://example.com", [], true)

  /** A subscribed row whose mark fails: one delivery is reported, and none is there. */
  lemma FailedDrainMiscounts()
    ensures Drain(ONE_ROW, map["org" := LISTENER], 100, true, Faults(_ => false, _ => false, _ => true), Works)
         == Drained(1, true, ONE_ROW, [])
  {
    var faults := Faults(_ => false, _ => false, _ => true);
    var ids, seen := [0], [Some(LISTENER)];
    assert Claimable(ONE_ROW, {}, 0) == [];
    assert Claimable(ONE_ROW, {}, 1) == ids;
    assert Lookup(map["org" := LISTENER], ONE_ROW[0].org) == Some(LISTENER);
    assert Looked(ONE_ROW, map["org" := LISTENER], ids, faults.lookups) == seen;
    assert StopAt(ONE_ROW, ids, seen, faults, 0) == 0;
    assert |Inserted(ONE_ROW, ids, seen, faults, 0)| == 1;
    assert Drain(ONE_ROW, map["org" := LISTENER], 100, true, faults, Works)
        == WorkedOff(ONE_ROW, ids, seen, faults, Works);
  }

  // ---------------------------------------------------------------- the drain method is such a run

  function Looks(tx: nat, n: nat, fails: nat -> bool): seq<Step> {
    seq(n, k requires 0 <= k < n => Look(tx, fails(k)))
  }

  function WithSeen(s: State, tx: nat, seen: seq<Option<Endpoint>>): State
    requires tx in s.txs
  {
    s.(txs := s.txs[tx := s.txs[tx].(seen := seen)])
  }

  lemma LookOnce(s: State, tx: nat, fails: nat -> bool, m: nat)
    requires tx in s.txs && InRange(s.rows, s.txs[tx].claimed) && m < |s.txs[tx].claimed|
    ensures var all := Looked(s.rows, s.endpoints, s.txs[tx].claimed, fails);
            Next(WithSeen(s, tx, all[..m]), Look(tx, fails(m))) == WithSeen(s, tx, all[..m + 1])
  {
    var all := Looked(s.rows, s.endpoints, s.txs[tx].claimed, fails);
    var before := WithSeen(s, tx, all[..m]);
    assert |before.txs[tx].seen| == m;
    assert all[..m + 1] == all[..m] + [all[m]];
    assert before.txs[tx := before.txs[tx].(seen := all[..m + 1])] == WithSeen(s, tx, all[..m + 1]).txs;
  }

  lemma {:induction false} LooksLook(s: State, tx: nat, fails: nat -> bool, n: nat)
    requires tx in s.txs && s.txs[tx].seen == [] && InRange(s.rows, s.txs[tx].claimed) && n <= |s.txs[tx].claimed|
    ensures Run(s, Looks(tx, n, fails))
         == WithSeen(s, tx, Looked(s.rows, s.endpoints, s.txs[tx].claimed, fails)[..n])
  {
    var all := Looked(s.rows, s.endpoints, s.txs[tx].claimed, fails);
    if n == 0 {
      assert s.txs[tx := s.txs[tx]] == s.txs;
      assert WithSeen(s, tx, all[..0]) == s && Looks(tx, 0, fails) == [];
    } else {
      var m, steps := n - 1, Looks(tx, n, fails);
      LooksLook(s, tx, fails, m);
      LookOnce(s, tx, fails, m);
      assert steps[..m] == Looks(tx, m, fails) && steps[m] == Look(tx, fails(m));
      assert Run(s, steps) == Next(WithSeen(s, tx, all[..m]), steps[m]);
    }
  }

  lemma CommitsTo(s: State, tx: nat)
    requires tx in s.txs && Ready(s, s.txs[tx])
    ensures var s', t := Next(s, Commit(tx)), s.txs[tx];
            && s'.rows == Marked(s.rows, t.claimed) && s'.txs == s.txs - {tx}
            && s'.deliveries == s.deliveries + Made(s.rows, t.claimed, t.seen)
  {
  }

  /** With no other transaction open, after beginning and looking at every row the rows and endpoints seen are these. */
  lemma BeginAndLook(s: State, tx: nat, limit: nat, fails: nat -> bool)
    requires s.txs == map[]
    ensures var ids := Claim(s.rows, {}, limit);
            var t := Tx(ids, Looked(s.rows, s.endpoints, ids, fails));
            Run(Next(s, Begin(tx, limit)), Looks(tx, |ids|, fails)) == s.(txs := map[tx := t])
  {
    var ids, begun := Claim(s.rows, {}, limit), Next(s, Begin(tx, limit));
    assert Locked(s) == {};
    assert begun == s.(txs := map[tx := Tx(ids, [])]);
    LooksLook(begun, tx, fails, |ids|);
    var all := Looked(s.rows, s.endpoints, ids, fails);
    assert all[..|ids|] == all;
    assert begun.txs[tx := Tx(ids, all)] == map[tx := Tx(ids, all)];
  }

  lemma ThroughInsertsAll(rows: seq<Row>, ids: seq<nat>, seen: seq<Option<Endpoint>>, faults: Faults, commit: Fate)
    requires InRange(rows, ids) && |seen| == |ids|
    ensures var d := WorkedOff(rows, ids, seen, faults, commit);
            if CarriesThrough(rows, ids, seen, faults, commit)
            then d.rows == Marked(rows, ids) && d.made == Made(rows, ids, seen)
            else d.rows == rows && d.made == []
  {
    CarriesThroughToTheEnd(rows, ids, seen, faults, commit);
    MadeToIs(rows, ids, seen, |ids|);
    assert ids[..|ids|] == ids && seen[..|ids|] == seen;
  }

  lemma EndsAsWorkedOff(s: State, tx: nat, t: Tx, faults: Faults, commit: Fate)
    requires s.txs == map[tx := t] && Ready(s, t)
    ensures var d := WorkedOff(s.rows, t.claimed, t.seen, faults, commit);
            var through := CarriesThrough(s.rows, t.claimed, t.seen, faults, commit);
            var s' := Next(s, if through then Commit(tx) else Abort(tx));
            s'.rows == d.rows && s'.deliveries == s.deliveries + d.made && s'.txs == map[]
  {
    ThroughInsertsAll(s.rows, t.claimed, t.seen, faults, commit);
    if CarriesThrough(s.rows, t.claimed, t.seen, faults, commit) {
      CommitsTo(s, tx);
    } else {
      assert s.deliveries + [] == s.deliveries;
    }
  }

  /**
   With no other transaction open, a drain is begin, look at every row, and commit if it carries through and abort
   otherwise.
   */
  lemma DrainIsRun(s: State, tx: nat, limit: nat, faults: Faults, commit: Fate)
    requires s.txs == map[]
    ensures var d := Drain(s.rows, s.endpoints, limit, true, faults, commit);
            var ids := Claim(s.rows, {}, limit);
            var seen := Looked(s.rows, s.endpoints, ids, faults.lookups);
            var looked := Run(Next(s, Begin(tx, limit)), Looks(tx, |ids|, faults.lookups));
            var s' := Next(looked, if CarriesThrough(s.rows, ids, seen, faults, commit) then Commit(tx) else Abort(tx));
            s'.rows == d.rows && s'.deliveries == s.deliveries + d.made && s'.txs == map[]
  {
    var ids := Claim(s.rows, {}, limit);
    var t := Tx(ids, Looked(s.rows, s.endpoints, ids, faults.lookups));
    BeginAndLook(s, tx, limit, faults.lookups);
    EndsAsWorkedOff(s.(txs := map[tx := t]), tx, t, faults, commit);
  }
}
