/**
 The activity bus: publishers fan an event out to the current subscribers of its org under a read lock; subscribing
 and cancelling change the subscriber sets under the write lock; cancelling closes the channel after unlocking.

 A run is any interleaving of single steps of publishers, subscribers, cancellers and receivers. A send on a closed
 channel, or a second close, panics.
 */
module Bus {
  import opened Options

  const BUFFER := 16

  /** `pub` is the publisher that carries the event. */
  datatype Event = Event(org: string, pub: nat)

  /** Where a subscription is, from making its channel to closing it. The once-guard lets only one cancel through. */
  datatype Phase = Made | Locked | Added | Live | Stopping | StopLocked | Unlinked | Unlocked | Shut

  /** A subscriber's channel. `accepted`, `dropped` and `received` log what was sent into it, refused, and taken out. */
  datatype Chan = Chan(org: string, phase: Phase, closed: bool, buf: seq<Event>,
                       accepted: seq<Event>, dropped: seq<Event>, received: seq<Event>)

  datatype PubPhase = Starting | Sending(todo: set<nat>) | Sent

  /** `targets` are the subscribers registered when the publisher took the read lock. */
  datatype Pub = Pub(org: string, phase: PubPhase, targets: set<nat>)

  datatype State = State(
    chans: seq<Chan>, pubs: seq<Pub>, subs: map<string, set<nat>>,
    readers: set<nat>, writer: Option<nat>, panicked: bool)

  const EMPTY := State([], [], map[], {}, None, false)

  datatype Step =
    | Publish(org: string) | PubLock(p: nat) | PubSend(p: nat, c: nat) | PubUnlock(p: nat)
    | Subscribe(org: string) | SubLock(c: nat) | SubAdd(c: nat) | SubUnlock(c: nat)
    | Cancel(c: nat) | CancelLock(c: nat) | CancelRemove(c: nat) | CancelUnlock(c: nat) | CancelClose(c: nat)
    | Receive(c: nat)

  function SubsOf(s: State, org: string): set<nat> {
    if org in s.subs then s.subs[org] else {}
  }

  function SetChan(s: State, c: nat, ch: Chan): State
    requires c < |s.chans|
  {
    s.(chans := s.chans[c := ch])
  }

  function ToPhase(s: State, c: nat, phase: Phase): State
    requires c < |s.chans|
  {
    SetChan(s, c, s.chans[c].(phase := phase))
  }

  predicate IsAt(s: State, c: nat, phase: Phase) {
    c < |s.chans| && s.chans[c].phase == phase
  }

  /** The non-blocking send: a full buffer drops the event. */
  function Offer(ch: Chan, e: Event): Chan {
    if |ch.buf| < BUFFER then ch.(buf := ch.buf + [e], accepted := ch.accepted + [e])
    else ch.(dropped := ch.dropped + [e])
  }

  /** A step that cannot be taken now, such as locking a held lock, leaves the state alone. */
  function Next(s: State, step: Step): State {
    match step
    case Publish(org) => s.(pubs := s.pubs + [Pub(org, Starting, {})])
    case PubLock(p) =>
      if p >= |s.pubs| || s.pubs[p].phase != Starting || s.writer.Some? then s else
        var targets := SubsOf(s, s.pubs[p].org);
        s.(readers := s.readers + {p}, pubs := s.pubs[p := Pub(s.pubs[p].org, Sending(targets), targets)])
    case PubSend(p, c) =>
      if p >= |s.pubs| || !s.pubs[p].phase.Sending? || c !in s.pubs[p].phase.todo || c >= |s.chans| then s else
        var s' := s.(pubs := s.pubs[p := s.pubs[p].(phase := Sending(s.pubs[p].phase.todo - {c}))]);
        if s.chans[c].closed then s'.(panicked := true)
        else SetChan(s', c, Offer(s.chans[c], Event(s.pubs[p].org, p)))
    case PubUnlock(p) =>
      if p >= |s.pubs| || s.pubs[p].phase != Sending({}) then s
      else s.(readers := s.readers - {p}, pubs := s.pubs[p := s.pubs[p].(phase := Sent)])
    case Subscribe(org) => s.(chans := s.chans + [Chan(org, Made, false, [], [], [], [])])
    case SubLock(c) =>
      if !IsAt(s, c, Made) || s.writer.Some? || s.readers != {} then s
      else ToPhase(s, c, Locked).(writer := Some(c))
    case SubAdd(c) =>
      if !IsAt(s, c, Locked) then s
      else ToPhase(s, c, Added).(subs := s.subs[s.chans[c].org := SubsOf(s, s.chans[c].org) + {c}])
    case SubUnlock(c) => if !IsAt(s, c, Added) then s else ToPhase(s, c, Live).(writer := None)
    case Cancel(c) => if !IsAt(s, c, Live) then s else ToPhase(s, c, Stopping)
    case CancelLock(c) =>
      if !IsAt(s, c, Stopping) || s.writer.Some? || s.readers != {} then s
      else ToPhase(s, c, StopLocked).(writer := Some(c))
    case CancelRemove(c) =>
      if !IsAt(s, c, StopLocked) then s else
        var org := s.chans[c].org;
        var rest := SubsOf(s, org) - {c};
        ToPhase(s, c, Unlinked).(subs := if rest == {} then s.subs - {org} else s.subs[org := rest])
    case CancelUnlock(c) => if !IsAt(s, c, Unlinked) then s else ToPhase(s, c, Unlocked).(writer := None)
    case CancelClose(c) =>
      if !IsAt(s, c, Unlocked) then s
      else if s.chans[c].closed then s.(panicked := true)
      else SetChan(s, c, s.chans[c].(phase := Shut, closed := true))
    case Receive(c) =>
      if c >= |s.chans| || s.chans[c].buf == [] then s else
        var ch := s.chans[c];
        SetChan(s, c, ch.(buf := ch.buf[1..], received := ch.received + [ch.buf[0]]))
  }

  function Run(s: State, steps: seq<Step>): State {
    if steps == [] then s else Next(Run(s, steps[..|steps| - 1]), steps[|steps| - 1])
  }

  // ---------------------------------------------------------------- the invariant

  predicate Listed(phase: Phase) {
    phase in {Added, Live, Stopping, StopLocked}
  }

  predicate HoldsLock(phase: Phase) {
    phase in {Locked, Added, StopLocked, Unlinked}
  }

  /** A subscriber is registered under its org from the add to the remove; no org is registered without one. */
  ghost predicate Registered(s: State) {
    && (forall c: nat | c < |s.chans| :: Listed(s.chans[c].phase) <==> c in SubsOf(s, s.chans[c].org))
    && (forall org | org in s.subs ::
          s.subs[org] != {} && forall c | c in s.subs[org] :: c < |s.chans| && s.chans[c].org == org)
  }

  /** The write lock excludes readers and other writers; the read lock is held by exactly the sending publishers. */
  ghost predicate Exclusive(s: State) {
    && (s.writer.Some? ==> s.readers == {} && s.writer.value < |s.chans|)
    && (forall p | p in s.readers :: p < |s.pubs|)
    && (forall c: nat | c < |s.chans| :: HoldsLock(s.chans[c].phase) <==> s.writer == Some(c))
    && (forall p: nat | p < |s.pubs| :: s.pubs[p].phase.Sending? <==> p in s.readers)
  }

  /** A publisher has yet to serve only subscribers that are registered now. */
  ghost predicate Serving(s: State) {
    forall p: nat | p < |s.pubs| && s.pubs[p].phase.Sending? ::
      s.pubs[p].phase.todo <= SubsOf(s, s.pubs[p].org)
  }

  ghost predicate ChanOk(ch: Chan) {
    && (ch.closed <==> ch.phase == Shut)
    && |ch.buf| <= BUFFER
    && ch.accepted == ch.received + ch.buf
    && (forall e | e in ch.accepted + ch.dropped :: e.org == ch.org)
  }

  ghost predicate Safe(s: State) {
    && !s.panicked
    && Registered(s) && Exclusive(s) && Serving(s)
    && forall c | 0 <= c < |s.chans| :: ChanOk(s.chans[c])
  }

  lemma TodoIsOpen(s: State, p: nat, c: nat)
    requires Safe(s) && p < |s.pubs| && s.pubs[p].phase.Sending? && c in s.pubs[p].phase.todo
    ensures c < |s.chans| && !s.chans[c].closed && s.chans[c].org == s.pubs[p].org && s.writer.None?
  {
    assert c in SubsOf(s, s.pubs[p].org);
  }

  lemma OfferOk(ch: Chan, e: Event)
    requires ChanOk(ch) && !ch.closed && e.org == ch.org
    ensures ChanOk(Offer(ch, e))
  {
    assert ch.received + (ch.buf + [e]) == (ch.received + ch.buf) + [e];
  }

  lemma SendKeepsSafe(s: State, p: nat, c: nat)
    requires Safe(s)
    ensures Safe(Next(s, PubSend(p, c)))
  {
    if p < |s.pubs| && s.pubs[p].phase.Sending? && c in s.pubs[p].phase.todo {
      TodoIsOpen(s, p, c);
      OfferOk(s.chans[c], Event(s.pubs[p].org, p));
    }
  }

  lemma PublisherKeepsSafe(s: State, step: Step)
    requires Safe(s) && (step.Publish? || step.PubLock? || step.PubUnlock?)
    ensures Safe(Next(s, step))
  {
  }

  lemma SubscribeKeepsSafe(s: State, org: string)
    requires Safe(s)
    ensures Safe(Next(s, Subscribe(org)))
  {
    assert |s.chans| !in SubsOf(s, org);
  }

  /** One channel moves on without touching the subscriber sets, taking or releasing the write lock if at all. */
  ghost predicate Moves(s: State, s': State, c: nat) {
    && c < |s.chans| == |s'.chans| && s'.chans == s.chans[c := s'.chans[c]]
    && s'.pubs == s.pubs && s'.subs == s.subs && s'.readers == s.readers && s'.panicked == s.panicked
    && s'.chans[c].org == s.chans[c].org && ChanOk(s'.chans[c])
    && Listed(s'.chans[c].phase) == Listed(s.chans[c].phase)
    && if s'.writer == s.writer then HoldsLock(s'.chans[c].phase) == HoldsLock(s.chans[c].phase)
       else if s'.writer.None? then s.writer == Some(c) && !HoldsLock(s'.chans[c].phase)
       else s.writer.None? && s.readers == {} && s'.writer == Some(c) && HoldsLock(s'.chans[c].phase)
  }

  lemma MovesKeepSafe(s: State, s': State, c: nat)
    requires Safe(s) && Moves(s, s', c)
    ensures Safe(s')
  {
    assert forall org: string :: SubsOf(s', org) == SubsOf(s, org);
  }

  lemma LockMoves(s: State, step: Step)
    requires Safe(s) && (step.SubLock? || step.CancelLock?)
    ensures Next(s, step) == s || Moves(s, Next(s, step), step.c)
  {
  }

  lemma UnlockMoves(s: State, step: Step)
    requires Safe(s) && (step.SubUnlock? || step.CancelUnlock? || step.Cancel?)
    ensures Next(s, step) == s || Moves(s, Next(s, step), step.c)
  {
  }

  lemma CloseMoves(s: State, c: nat)
    requires Safe(s)
    ensures Next(s, CancelClose(c)) == s || Moves(s, Next(s, CancelClose(c)), c)
  {
  }

  lemma ReceiveMoves(s: State, c: nat)
    requires Safe(s)
    ensures Next(s, Receive(c)) == s || Moves(s, Next(s, Receive(c)), c)
  {
    if c < |s.chans| && s.chans[c].buf != [] {
      var ch := s.chans[c];
      assert ChanOk(ch);
      assert ch.received + ch.buf == (ch.received + [ch.buf[0]]) + ch.buf[1..];
    }
  }

  lemma AddLists(s: State, c: nat)
    requires Registered(s) && IsAt(s, c, Locked)
    ensures Registered(Next(s, SubAdd(c)))
  {
    var s', me := Next(s, SubAdd(c)), s.chans[c].org;
    forall org: string ensures SubsOf(s', org) == if org == me then SubsOf(s, org) + {c} else SubsOf(s, org) {
    }
  }

  lemma AddKeepsSafe(s: State, c: nat)
    requires Safe(s)
    ensures Safe(Next(s, SubAdd(c)))
  {
    if IsAt(s, c, Locked) {
      AddLists(s, c);
      var s' := Next(s, SubAdd(c));
      assert s.writer == Some(c) && s.readers == {};
      assert Exclusive(s') && Serving(s');
    }
  }

  lemma RemoveUnlists(s: State, c: nat)
    requires Registered(s) && IsAt(s, c, StopLocked)
    ensures Registered(Next(s, CancelRemove(c)))
  {
    var s', me := Next(s, CancelRemove(c)), s.chans[c].org;
    forall org: string ensures SubsOf(s', org) == if org == me then SubsOf(s, org) - {c} else SubsOf(s, org) {
    }
  }

  lemma RemoveKeepsExclusive(s: State, c: nat)
    requires Exclusive(s) && IsAt(s, c, StopLocked)
    ensures var s' := Next(s, CancelRemove(c)); Exclusive(s') && s.readers == {} && s'.pubs == s.pubs
  {
    assert s.writer == Some(c);
  }

  /** While nobody reads, no publisher is sending. */
  lemma NobodyServing(s: State)
    requires Exclusive(s) && s.readers == {}
    ensures Serving(s)
  {
  }

  lemma RemoveKeepsSafe(s: State, c: nat)
    requires Safe(s)
    ensures Safe(Next(s, CancelRemove(c)))
  {
    if IsAt(s, c, StopLocked) {
      RemoveUnlists(s, c);
      RemoveKeepsExclusive(s, c);
      NobodyServing(Next(s, CancelRemove(c)));
    }
  }

  lemma SubscriberKeepsSafe(s: State, step: Step)
    requires Safe(s) && (step.SubLock? || step.SubUnlock? || step.Cancel? || step.CancelLock? || step.CancelUnlock?)
    ensures Safe(Next(s, step))
  {
    if step.SubLock? || step.CancelLock? {
      LockMoves(s, step);
    } else {
      UnlockMoves(s, step);
    }
    if Next(s, step) != s {
      MovesKeepSafe(s, Next(s, step), step.c);
    }
  }

  lemma ClosingKeepsSafe(s: State, step: Step)
    requires Safe(s) && (step.CancelClose? || step.Receive?)
    ensures Safe(Next(s, step))
  {
    CloseMoves(s, step.c);
    ReceiveMoves(s, step.c);
    if Next(s, step) != s {
      MovesKeepSafe(s, Next(s, step), step.c);
    }
  }

  lemma StepKeepsSafe(s: State, step: Step)
    requires Safe(s)
    ensures Safe(Next(s, step))
  {
    match step
    case PubSend(p, c) => SendKeepsSafe(s, p, c);
    case SubAdd(c) => AddKeepsSafe(s, c);
    case CancelRemove(c) => RemoveKeepsSafe(s, c);
    case Publish(_) => PublisherKeepsSafe(s, step);
    case PubLock(_) => PublisherKeepsSafe(s, step);
    case PubUnlock(_) => PublisherKeepsSafe(s, step);
    case Subscribe(org) => SubscribeKeepsSafe(s, org);
    case SubLock(_) => SubscriberKeepsSafe(s, step);
    case SubUnlock(_) => SubscriberKeepsSafe(s, step);
    case Cancel(_) => SubscriberKeepsSafe(s, step);
    case CancelLock(_) => SubscriberKeepsSafe(s, step);
    case CancelUnlock(_) => SubscriberKeepsSafe(s, step);
    case CancelClose(_) => ClosingKeepsSafe(s, step);
    case Receive(_) => ClosingKeepsSafe(s, step);
  }

  // ---------------------------------------------------------------- who gets what

  /** The event was put to channel `ch` and taken or, the buffer being full, refused; but not both, and not twice. */
  function Offers(ch: Chan, e: Event): nat {
    Occurs(ch.accepted, e) + Occurs(ch.dropped, e)
  }

  function Occurs(es: seq<Event>, e: Event): nat {
    if es == [] then 0 else Occurs(es[..|es| - 1], e) + if es[|es| - 1] == e then 1 else 0
  }

  /** Subscribers publisher `p` has dealt with so far. */
  function Served(s: State, p: nat): set<nat>
    requires p < |s.pubs|
  {
    if s.pubs[p].phase.Sending? then s.pubs[p].targets - s.pubs[p].phase.todo else s.pubs[p].targets
  }

  /** Channel `c` has been offered publisher `p`'s event once if `p` has served it, and never otherwise. */
  ghost predicate Delivered(s: State, p: nat, c: nat) {
    p < |s.pubs| && c < |s.chans| ==>
      Offers(s.chans[c], Event(s.pubs[p].org, p)) == if c in Served(s, p) then 1 else 0
  }

  /** Targets exist, what is to do is among them, and there are none before the lock is taken. */
  ghost predicate TargetsOk(s: State, p: nat) {
    p < |s.pubs| ==>
      && (forall c | c in s.pubs[p].targets :: c < |s.chans|)
      && (s.pubs[p].phase.Sending? ==> s.pubs[p].phase.todo <= s.pubs[p].targets)
      && (s.pubs[p].phase.Starting? ==> s.pubs[p].targets == {})
  }

  /** Only existing publishers have events out. */
  ghost predicate EventsOk(s: State, c: nat) {
    c < |s.chans| ==> forall e | e in s.chans[c].accepted + s.chans[c].dropped :: e.pub < |s.pubs|
  }

  ghost predicate Known(s: State) {
    (forall p: nat :: TargetsOk(s, p)) && forall c: nat :: EventsOk(s, c)
  }

  lemma {:induction false} OccursNot(es: seq<Event>, e: Event)
    requires e !in es
    ensures Occurs(es, e) == 0
  {
    if es != [] {
      OccursNot(es[..|es| - 1], e);
    }
  }

  lemma OccursSnoc(es: seq<Event>, last: Event, e: Event)
    ensures Occurs(es + [last], e) == Occurs(es, e) + if last == e then 1 else 0
  {
    assert (es + [last])[..|es|] == es;
  }

  lemma OfferCounts(ch: Chan, sent: Event, e: Event)
    ensures Offers(Offer(ch, sent), e) == Offers(ch, e) + if sent == e then 1 else 0
  {
    OccursSnoc(ch.accepted, sent, e);
    OccursSnoc(ch.dropped, sent, e);
  }

  /** Only a send offers anything to a channel; a new channel has been offered nothing. */
  lemma OthersOfferNothing(s: State, step: Step, c: nat)
    requires !step.PubSend? && c < |Next(s, step).chans|
    ensures var s' := Next(s, step);
            if c < |s.chans|
            then s'.chans[c].accepted == s.chans[c].accepted && s'.chans[c].dropped == s.chans[c].dropped
            else s'.chans[c].accepted == [] && s'.chans[c].dropped == []
  {
  }

  lemma ChannelsStay(s: State, step: Step)
    ensures |s.chans| <= |Next(s, step).chans| && |s.pubs| <= |Next(s, step).pubs|
  {
  }

  /** Only a send serves anybody; a new publisher has served nobody. */
  lemma OthersServeNobody(s: State, step: Step, p: nat)
    requires TargetsOk(s, p) && !step.PubSend? && p < |Next(s, step).pubs|
    ensures var s' := Next(s, step);
            if p < |s.pubs| then s'.pubs[p].org == s.pubs[p].org && Served(s', p) == Served(s, p)
            else p == |s.pubs| && Served(s', p) == {}
  {
  }

  lemma StepKeepsTargets(s: State, step: Step, p: nat)
    requires Safe(s) && TargetsOk(s, p)
    ensures TargetsOk(Next(s, step), p)
  {
    ChannelsStay(s, step);
    if step.PubLock? && step.p == p < |s.pubs| {
      assert forall c | c in SubsOf(s, s.pubs[p].org) :: c < |s.chans|;
    }
  }

  lemma SendKeepsEvents(s: State, p: nat, d: nat, c: nat)
    requires EventsOk(s, c)
    ensures EventsOk(Next(s, PubSend(p, d)), c)
  {
  }

  lemma StepKeepsEvents(s: State, step: Step, c: nat)
    requires EventsOk(s, c)
    ensures EventsOk(Next(s, step), c)
  {
    if step.PubSend? {
      SendKeepsEvents(s, step.p, step.c, c);
    } else if c < |Next(s, step).chans| {
      OthersOfferNothing(s, step, c);
      ChannelsStay(s, step);
    }
  }

  lemma StepKeepsKnown(s: State, step: Step)
    requires Safe(s) && Known(s)
    ensures Known(Next(s, step))
  {
    forall p: nat ensures TargetsOk(Next(s, step), p) {
      StepKeepsTargets(s, step, p);
    }
    forall c: nat ensures EventsOk(Next(s, step), c) {
      StepKeepsEvents(s, step, c);
    }
  }

  lemma SendDelivers(s: State, q: nat, d: nat, p: nat, c: nat)
    requires Safe(s) && Known(s) && p < |s.pubs| && c < |s.chans| && Delivered(s, p, c)
    ensures Delivered(Next(s, PubSend(q, d)), p, c)
  {
    assert TargetsOk(s, p) && TargetsOk(s, q);
    if q < |s.pubs| && s.pubs[q].phase.Sending? && d in s.pubs[q].phase.todo {
      TodoIsOpen(s, q, d);
      OfferCounts(s.chans[d], Event(s.pubs[q].org, q), Event(s.pubs[p].org, p));
    }
  }

  lemma OthersDeliverNothing(s: State, step: Step, p: nat, c: nat)
    requires Known(s) && Delivered(s, p, c) && !step.PubSend?
    ensures Delivered(Next(s, step), p, c)
  {
    var s' := Next(s, step);
    assert TargetsOk(s, p) && EventsOk(s, c);
    if p < |s'.pubs| && c < |s'.chans| {
      OthersOfferNothing(s, step, c);
      OthersServeNobody(s, step, p);
      if p == |s.pubs| && c < |s.chans| {
        OccursNot(s.chans[c].accepted, Event(s'.pubs[p].org, p));
        OccursNot(s.chans[c].dropped, Event(s'.pubs[p].org, p));
      }
    }
  }

  lemma StepKeepsDelivered(s: State, step: Step, p: nat, c: nat)
    requires Safe(s) && Known(s) && Delivered(s, p, c)
    ensures Delivered(Next(s, step), p, c)
  {
    if !step.PubSend? {
      OthersDeliverNothing(s, step, p, c);
    } else if p < |s.pubs| && c < |s.chans| {
      SendDelivers(s, step.p, step.c, p, c);
    }
  }

  /**
   In every interleaving of publishers, subscribers, repeated cancels and receivers: nothing is ever sent on a closed
   channel and no channel is closed twice; buffers hold at most sixteen events, all of the subscriber's org, and what
   was accepted is what was received followed by what is buffered; no org stays registered without subscribers; and
   each event is offered exactly once to each subscriber its publisher has served, and never to anybody else.
   */
  lemma {:induction false} BusSafety(steps: seq<Step>)
    ensures var s := Run(EMPTY, steps);
            && Safe(s) && Known(s) && (forall p: nat, c: nat :: Delivered(s, p, c))
            && !s.panicked && forall c | 0 <= c < |s.chans| :: |s.chans[c].buf| <= 16
  {
    if steps != [] {
      var n := |steps| - 1;
      BusSafety(steps[..n]);
      var before := Run(EMPTY, steps[..n]);
      StepKeepsSafe(before, steps[n]);
      StepKeepsKnown(before, steps[n]);
      forall p: nat, c: nat ensures Delivered(Run(EMPTY, steps), p, c) {
        StepKeepsDelivered(before, steps[n], p, c);
      }
    }
  }

  /** A step that drops an event puts it to a full buffer. */
  lemma DropStep(s: State, step: Step, c: nat, e: Event)
    requires Safe(s) && c < |Next(s, step).chans| && e in Next(s, step).chans[c].dropped
    ensures c < |s.chans|
    ensures e in s.chans[c].dropped || (step == PubSend(e.pub, c) && |s.chans[c].buf| == BUFFER)
  {
    if !step.PubSend? {
      OthersOfferNothing(s, step, c);
    }
  }

  /** In every run, each event in a subscriber's drop log was put to it at a moment when its buffer was full. */
  lemma {:induction false} DropsOnlyWhenFull(steps: seq<Step>, c: nat, e: Event) returns (n: nat)
    requires var s := Run(EMPTY, steps); c < |s.chans| && e in s.chans[c].dropped
    ensures n < |steps| && steps[n] == PubSend(e.pub, c)
    ensures var full := Run(EMPTY, steps[..n]); c < |full.chans| && |full.chans[c].buf| == 16
  {
    n := |steps| - 1;
    var before := Run(EMPTY, steps[..n]);
    BusSafety(steps[..n]);
    DropStep(before, steps[n], c, e);
    if e in before.chans[c].dropped {
      n := DropsOnlyWhenFull(steps[..n], c, e);
      assert steps[..|steps| - 1][..n] == steps[..n];
    }
  }

  /** A publisher's targets are the subscribers at its lock; no other step sets them. */
  lemma TargetsSetAtLock(s: State, step: Step, p: nat)
    requires p < |Next(s, step).pubs| && !Next(s, step).pubs[p].phase.Starting?
    ensures var s' := Next(s, step);
            p < |s.pubs| && s'.pubs[p].org == s.pubs[p].org
            && if s.pubs[p].phase.Starting? then step == PubLock(p) && s'.pubs[p].targets == SubsOf(s, s.pubs[p].org)
               else s'.pubs[p].targets == s.pubs[p].targets
  {
  }

  lemma {:induction false} LockedOnce(steps: seq<Step>, p: nat) returns (n: nat)
    requires var s := Run(EMPTY, steps); p < |s.pubs| && !s.pubs[p].phase.Starting?
    ensures n < |steps| && steps[n] == PubLock(p)
    ensures var s, lock := Run(EMPTY, steps), Run(EMPTY, steps[..n]); s.pubs[p].targets == SubsOf(lock, s.pubs[p].org)
  {
    n := |steps| - 1;
    var before := Run(EMPTY, steps[..n]);
    TargetsSetAtLock(before, steps[n], p);
    if !before.pubs[p].phase.Starting? {
      n := LockedOnce(steps[..n], p);
      assert steps[..|steps| - 1][..n] == steps[..n];
    }
  }

  /**
   In every run, a publisher that has left has offered its event exactly once to each subscriber that was registered
   for its org when it took the lock, and to nobody else.
   */
  lemma PublisherServesAll(steps: seq<Step>, p: nat) returns (n: nat)
    requires var s := Run(EMPTY, steps); p < |s.pubs| && s.pubs[p].phase.Sent?
    ensures n < |steps| && steps[n] == PubLock(p)
    ensures var s := Run(EMPTY, steps);
            var registered := SubsOf(Run(EMPTY, steps[..n]), s.pubs[p].org);
            && (forall c | c in registered :: c < |s.chans|)
            && forall c: nat | c < |s.chans| ::
                 Offers(s.chans[c], Event(s.pubs[p].org, p)) == if c in registered then 1 else 0
  {
    n := LockedOnce(steps, p);
    var s := Run(EMPTY, steps);
    BusSafety(steps);
    assert TargetsOk(s, p);
    forall c: nat | c < |s.chans|
      ensures Offers(s.chans[c], Event(s.pubs[p].org, p)) == if c in s.pubs[p].targets then 1 else 0
    {
      assert Delivered(s, p, c);
    }
  }

  // ---------------------------------------------------------------- nobody is left hanging

  /** A lock that nobody holds can be taken. */
  predicate Free(s: State) {
    s.writer.None? && s.readers == {}
  }

  lemma FourSteps(s: State, a: Step, b: Step, c: Step, d: Step)
    ensures Run(s, [a, b, c, d]) == Next(Next(Next(Next(s, a), b), c), d)
  {
    assert [a, b, c, d][..3] == [a, b, c] && [a, b, c][..2] == [a, b] && [a, b][..1] == [a] && [a][..0] == [];
    assert Run(s, [a]) == Next(Run(s, []), a);
    assert Run(s, [a, b]) == Next(Run(s, [a]), b);
    assert Run(s, [a, b, c]) == Next(Run(s, [a, b]), c);
  }

  lemma RunSnoc(s: State, steps: seq<Step>, step: Step)
    ensures Run(s, steps + [step]) == Next(Run(s, steps), step)
  {
    assert (steps + [step])[..|steps|] == steps;
  }

  /** Left alone, a subscription is registered for its org, live and empty, with the lock free again. */
  lemma SubscribeRegisters(s: State, org: string)
    requires Free(s)
    ensures var c := |s.chans|;
            var s' := Run(s, [Subscribe(org), SubLock(c), SubAdd(c), SubUnlock(c)]);
            && Free(s') && |s'.chans| == c + 1 && s'.chans[c] == Chan(org, Live, false, [], [], [], [])
            && SubsOf(s', org) == SubsOf(s, org) + {c}
  {
    var c := |s.chans|;
    FourSteps(s, Subscribe(org), SubLock(c), SubAdd(c), SubUnlock(c));
    var s2 := Next(Next(s, Subscribe(org)), SubLock(c));
    assert s2.chans[c] == Chan(org, Locked, false, [], [], [], []) && s2.writer == Some(c);
    var s3 := Next(s2, SubAdd(c));
    assert s3.chans[c].phase == Added;
  }

  lemma CancelUnlinks(s: State, c: nat)
    requires Free(s) && IsAt(s, c, Live)
    ensures var s', org := Next(Next(Next(s, Cancel(c)), CancelLock(c)), CancelRemove(c)), s.chans[c].org;
            && |s'.chans| == |s.chans| && s'.chans[c] == s.chans[c].(phase := Unlinked) && s'.panicked == s.panicked
            && s'.readers == {} && SubsOf(s', org) == SubsOf(s, org) - {c}
  {
    var s2 := Next(Next(s, Cancel(c)), CancelLock(c));
    assert s2.chans[c] == s.chans[c].(phase := StopLocked) && s2.subs == s.subs;
  }

  lemma UnlinkedCloses(s: State, c: nat)
    requires IsAt(s, c, Unlinked) && !s.chans[c].closed && s.readers == {}
    ensures var s' := Next(Next(s, CancelUnlock(c)), CancelClose(c));
            && Free(s') && |s'.chans| == |s.chans| && s'.chans[c].closed && s'.panicked == s.panicked
            && s'.subs == s.subs && s'.chans[c].buf == s.chans[c].buf
  {
  }

  /** Left alone, a cancelled subscription is no longer registered, its channel is closed, and the lock is free. */
  lemma CancelCloses(s: State, c: nat)
    requires Free(s) && IsAt(s, c, Live) && !s.chans[c].closed
    ensures var org := s.chans[c].org;
            var s' := Next(Run(s, [Cancel(c), CancelLock(c), CancelRemove(c), CancelUnlock(c)]), CancelClose(c));
            && Free(s') && |s'.chans| == |s.chans| && s'.chans[c].closed && s'.panicked == s.panicked
            && SubsOf(s', org) == SubsOf(s, org) - {c} && s'.chans[c].buf == s.chans[c].buf
  {
    FourSteps(s, Cancel(c), CancelLock(c), CancelRemove(c), CancelUnlock(c));
    CancelUnlinks(s, c);
    UnlinkedCloses(Next(Next(Next(s, Cancel(c)), CancelLock(c)), CancelRemove(c)), c);
  }

  /** One send accepts the event at the end of the buffer, or, sixteen being there already, drops it. */
  lemma SendOffers(s: State, p: nat, c: nat)
    requires Safe(s) && p < |s.pubs| && s.pubs[p].phase.Sending? && c in s.pubs[p].phase.todo
    ensures var s', e := Next(s, PubSend(p, c)), Event(s.pubs[p].org, p);
            && c < |s.chans| == |s'.chans| && |s'.pubs| == |s.pubs|
            && s'.pubs[p].phase == Sending(s.pubs[p].phase.todo - {c})
            && if |s.chans[c].buf| < 16 then s'.chans[c].buf == s.chans[c].buf + [e]
               else s'.chans[c].buf == s.chans[c].buf && s'.chans[c].dropped == s.chans[c].dropped + [e]
  {
    TodoIsOpen(s, p, c);
  }

  /** A publisher that holds the read lock can always finish: nothing it sends blocks. */
  lemma {:induction false} PublisherFinishes(s: State, steps: seq<Step>, p: nat) returns (more: seq<Step>)
    requires var s' := Run(s, steps); Safe(s') && p < |s'.pubs| && s'.pubs[p].phase.Sending?
    ensures steps <= more
    ensures var s'' := Run(s, more); p < |s''.pubs| && s''.pubs[p].phase.Sent? && p !in s''.readers
    decreases |Run(s, steps).pubs[p].phase.todo|
  {
    var s' := Run(s, steps);
    if s'.pubs[p].phase.todo == {} {
      RunSnoc(s, steps, PubUnlock(p));
      more := steps + [PubUnlock(p)];
    } else {
      var c :| c in s'.pubs[p].phase.todo;
      RunSnoc(s, steps, PubSend(p, c));
      SendOffers(s', p, c);
      StepKeepsSafe(s', PubSend(p, c));
      more := PublisherFinishes(s, steps + [PubSend(p, c)], p);
    }
  }

  /** A publisher that finds no writer takes the read lock, with the subscribers of its org to serve. */
  lemma PublishStarts(s: State, org: string)
    requires s.writer.None?
    ensures var p := |s.pubs|;
            var s' := Next(Next(s, Publish(org)), PubLock(p));
            |s'.pubs| == p + 1 && s'.pubs[p] == Pub(org, Sending(SubsOf(s, org)), SubsOf(s, org)) && p in s'.readers
  {
    var s1 := Next(s, Publish(org));
    assert s1.pubs[|s.pubs|] == Pub(org, Starting, {});
  }
}
