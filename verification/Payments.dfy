/**
 Top-up payments: a pending row made at checkout, settled once by the first verified gateway callback, with the
 credits granted by a separate transaction afterwards.

 A payment's index is its id, which is also the reference the gateway echoes back. Callbacks may be replayed,
 conflict with each other, name unknown payments, and run concurrently.
 */
module Payments {
  import opened Options
  import Credits

  datatype Status = Pending | Paid | Refused

  datatype Payment = Payment(org: string, credits: int, status: Status)

  /** A ledger row written by settling payment `ref`. */
  datatype Credit = Credit(ref: nat, org: string, amount: int)

  const MAX_CREDITS := 100000

  function Clamp(credits: int): (c: int)
    ensures 1 <= c <= 100000 && (1 <= credits <= 100000 ==> c == credits)
    ensures (credits < 1 ==> c == 100) && (credits > 100000 ==> c == 100000)
  {
    if credits <= 0 then 100 else if credits > MAX_CREDITS then MAX_CREDITS else credits
  }

  /** The compare-and-set: only a pending row takes a verdict. */
  function Settled(ps: seq<Payment>, ref: nat, verdict: Status): (r: seq<Payment>)
    ensures |r| == |ps|
  {
    if ref < |ps| && ps[ref].status == Pending then ps[ref := ps[ref].(status := verdict)] else ps
  }

  // ---------------------------------------------------------------- the service object

  class Billing {
    var payments: seq<Payment>
    var credits: seq<Credit>

    constructor ()
      ensures payments == [] && credits == []
    {
      payments, credits := [], [];
    }

    /** Records a pending payment; the gateway may still refuse to open its page, and the row stays. */
    method Checkout(org: string, amount: int, createFails: bool, gatewayFails: bool) returns (ref: Option<nat>)
      modifies this`payments
      ensures payments == if createFails then old(payments) else old(payments) + [Payment(org, Clamp(amount), Pending)]
      ensures ref == if createFails || gatewayFails then None else Some(|old(payments)|)
    {
      var credits := amount;
      if credits <= 0 {
        credits := 100;
      } else if credits > MAX_CREDITS {
        credits := MAX_CREDITS;
      }
      if createFails {
        return None;
      }
      payments := payments + [Payment(org, credits, Pending)];
      ref := if gatewayFails then None else Some(|payments| - 1);
    }

    /**
     `transitioned` tells whether this call took the row out of pending, as far as it knows; `update` is how the update
     goes, and `readFails` whether the read after an update that matched nothing fails.
     */
    method Settle(ref: nat, verdict: Status, update: Fate, readFails: bool)
      returns (found: Option<Payment>, transitioned: bool, failed: bool)
      modifies this`payments
      ensures payments == if update.Lost? then old(payments) else Settled(old(payments), ref, verdict)
      ensures var pending := ref < |old(payments)| && old(payments)[ref].status == Pending;
              && (failed <==> !update.Works? || (!pending && readFails))
              && |payments| == |old(payments)|
              && (forall i | 0 <= i < |payments| && i != ref :: payments[i] == old(payments)[i])
              && (ref < |payments| ==>
                    && payments[ref].org == old(payments)[ref].org
                    && payments[ref].credits == old(payments)[ref].credits
                    && payments[ref].status == if pending && !update.Lost? then verdict else old(payments)[ref].status)
              && (transitioned <==> !failed && pending)
              && found == if !failed && ref < |old(payments)| then Some(payments[ref]) else None
    {
      if update.Lost? {
        return None, false, true;
      }
      if ref < |payments| && payments[ref].status == Pending {
        payments := payments[ref := payments[ref].(status := verdict)];
        if update.Applied? {
          return None, false, true;
        }
        return Some(payments[ref]), true, false;
      }
      if update.Applied? || readFails {
        return None, false, true;
      }
      found := if ref < |payments| then Some(payments[ref]) else None;
      transitioned, failed := false, false;
    }

    /**
     A callback whose verification breaks, rejects or accepts it. Credits are granted only on the way from pending to
     paid, by the call that knows it made that step.
     */
    method SettlePayment(verifyFails: bool, verified: bool, ref: nat, verdict: Status,
                         update: Fate, readFails: bool, grant: Fate)
      returns (failed: bool)
      modifies this
      ensures var accepted := !verifyFails && verified;
              var pending := ref < |old(payments)| && old(payments)[ref].status == Pending;
              var due := accepted && pending && verdict == Paid && update.Works?;
              && payments == (if accepted && !update.Lost? then Settled(old(payments), ref, verdict) else old(payments))
              && |payments| == |old(payments)|
              && (forall i | 0 <= i < |payments| && i != ref :: payments[i] == old(payments)[i])
              && (ref < |payments| ==>
                    payments[ref].status
                    == if accepted && pending && !update.Lost? then verdict else old(payments)[ref].status)
              && credits == (if due && !grant.Lost?
                             then old(credits) + [Credit(ref, old(payments)[ref].org, old(payments)[ref].credits)]
                             else old(credits))
              && (failed <==> || verifyFails
                              || (accepted && (!update.Works? || (!pending && readFails)))
                              || (due && !grant.Works?))
    {
      if verifyFails {
        return true;
      }
      if !verified {
        return false;
      }
      var found, transitioned;
      found, transitioned, failed := Settle(ref, verdict, update, readFails);
      if failed || found.None? {
        return;
      }
      if transitioned && verdict == Paid {
        if !grant.Lost? {
          credits := credits + [Credit(ref, found.value.org, found.value.credits)];
        }
        failed := !grant.Works?;
      }
    }
  }

  // ---------------------------------------------------------------- concurrent callbacks

  /**
   `inFlight`: payments whose settling call has yet to grant. `forgone`: paid payments whose grant failed or whose
   settling call never learned that it had settled them. `bank` holds the credit book that grants, calls and
   provisioning runs share, and `spent` lists the org of each call charged to it.
   */
  datatype State = State(
    payments: seq<Payment>, credits: seq<Credit>, inFlight: set<nat>, forgone: set<nat>,
    bank: Credits.State, spent: seq<string>)

  function Opened(bank: Credits.State): State {
    State([], [], {}, {}, bank, [])
  }

  datatype Step =
    | CheckoutStep(org: string, amount: int)
    | SettleStep(ref: nat, verdict: Status, fate: Fate)
    | GrantStep(ref: nat, commits: bool)
    | CallStep(org: string, commits: bool)
    | EnterStep(owner: string, org: string)
    | ProvisionStep(p: nat, fate: Fate)

  function Next(s: State, step: Step): State {
    match step
    case CheckoutStep(org, amount) => s.(payments := s.payments + [Payment(org, Clamp(amount), Pending)])
    case SettleStep(ref, verdict, fate) =>
      if fate.Lost? || ref >= |s.payments| || s.payments[ref].status != Pending then s else
        var s' := s.(payments := Settled(s.payments, ref, verdict));
        if verdict != Paid then s'
        else if fate.Works? then s'.(inFlight := s.inFlight + {ref})
        else s'.(forgone := s.forgone + {ref})
    case GrantStep(ref, commits) =>
      if ref !in s.inFlight || ref >= |s.payments| then s else
        var s', p := s.(inFlight := s.inFlight - {ref}), s.payments[ref];
        if commits && Grantable(s.bank.book, p)
        then s'.(credits := s.credits + [Credit(ref, p.org, p.credits)], bank := Credits.Next(s.bank, TopUp(p)))
        else s'.(forgone := s.forgone + {ref})
    case CallStep(org, commits) =>
      if commits && Chargeable(s.bank.book, org)
      then s.(bank := Credits.Next(s.bank, PerCall(org)), spent := s.spent + [org]) else s
    case EnterStep(owner, org) => s.(bank := Credits.Next(s.bank, Credits.Enter(owner, org)))
    case ProvisionStep(p, fate) => s.(bank := Credits.Next(s.bank, Credits.Advance(p, fate)))
  }

  /** The grant fails only if the balance would not fit its column. */
  predicate Grantable(book: Credits.Book, p: Payment) {
    Credits.Grant(book, p.org, p.credits, "topup").Some?
  }

  predicate Chargeable(book: Credits.Book, org: string) {
    Credits.Deduct(book, org, 1, "call").Charged?
  }

  function TopUp(p: Payment): Credits.Step {
    Credits.GrantStep(p.org, p.credits, "topup", true)
  }

  function PerCall(org: string): Credits.Step {
    Credits.DeductStep(org, 1, "call", true)
  }

  function Run(s: State, steps: seq<Step>): State {
    if steps == [] then s else Next(Run(s, steps[..|steps| - 1]), steps[|steps| - 1])
  }

  function Granted(credits: seq<Credit>): set<nat> {
    set c | c in credits :: c.ref
  }

  function PaidRefs(ps: seq<Payment>): set<nat> {
    set i: nat | i < |ps| && ps[i].status == Paid
  }

  /** Every paid payment is in exactly one place: granted, in flight, or forgone. */
  ghost predicate Inv(s: State) {
    && PaidRefs(s.payments) == Granted(s.credits) + s.inFlight + s.forgone
    && Granted(s.credits) !! s.inFlight && Granted(s.credits) !! s.forgone && s.inFlight !! s.forgone
    && (forall a, b | 0 <= a < b < |s.credits| :: s.credits[a].ref != s.credits[b].ref)
    && (forall c | c in s.credits ::
          c.ref < |s.payments| && c == Credit(c.ref, s.payments[c.ref].org, s.payments[c.ref].credits))
    && (forall p | p in s.payments :: 1 <= p.credits <= MAX_CREDITS)
  }

  lemma GrantedSnoc(credits: seq<Credit>, c: Credit)
    ensures Granted(credits + [c]) == Granted(credits) + {c.ref}
  {
    assert forall d :: d in credits + [c] <==> d in credits || d == c;
  }

  lemma CheckoutKeepsInv(s: State, step: Step)
    requires Inv(s) && step.CheckoutStep?
    ensures Inv(Next(s, step))
  {
    assert PaidRefs(Next(s, step).payments) == PaidRefs(s.payments);
  }

  /** A settlement out of pending moves one payment, with its org and credits kept, to paid or refused. */
  lemma SettledRefs(ps: seq<Payment>, ref: nat, verdict: Status)
    requires ref < |ps| && ps[ref].status == Pending
    ensures ref !in PaidRefs(ps)
    ensures PaidRefs(Settled(ps, ref, verdict)) == if verdict == Paid then PaidRefs(ps) + {ref} else PaidRefs(ps)
    ensures var r := Settled(ps, ref, verdict);
            forall i | 0 <= i < |ps| :: r[i].org == ps[i].org && r[i].credits == ps[i].credits
  {
  }

  lemma SettleKeepsInv(s: State, step: Step)
    requires Inv(s) && step.SettleStep?
    ensures Inv(Next(s, step))
  {
    var s' := Next(s, step);
    if s' != s {
      SettledRefs(s.payments, step.ref, step.verdict);
      forall p | p in s'.payments ensures 1 <= p.credits <= MAX_CREDITS {
        var i :| 0 <= i < |s'.payments| && s'.payments[i] == p;
        assert s.payments[i] in s.payments;
      }
    }
  }

  lemma GrantKeepsInv(s: State, step: Step)
    requires Inv(s) && step.GrantStep?
    ensures Inv(Next(s, step))
  {
    var s' := Next(s, step);
    if s'.credits != s.credits {
      var p := s.payments[step.ref];
      GrantedSnoc(s.credits, Credit(step.ref, p.org, p.credits));
      assert forall a | 0 <= a < |s.credits| :: s.credits[a] in s.credits && s.credits[a].ref in Granted(s.credits);
    }
  }

  lemma StepKeepsInv(s: State, step: Step)
    requires Inv(s)
    ensures Inv(Next(s, step))
  {
    match step
    case CheckoutStep(_, _) => CheckoutKeepsInv(s, step);
    case SettleStep(_, _, _) => SettleKeepsInv(s, step);
    case GrantStep(_, _) => GrantKeepsInv(s, step);
    case CallStep(_, _) =>
    case EnterStep(_, _) =>
    case ProvisionStep(_, _) =>
  }

  /** A verdict, once given, is final; until then only the status can change. */
  ghost predicate VerdictsFinal(s: State, s': State) {
    && |s.payments| <= |s'.payments|
    && forall i | 0 <= i < |s.payments| ::
         && s'.payments[i] == s.payments[i].(status := s'.payments[i].status)
         && (s.payments[i].status != Pending ==> s'.payments[i].status == s.payments[i].status)
  }

  // ---------------------------------------------------------------- the accounts

  /** Credits bought by `org` in the payments `refs`. */
  function Bought(ps: seq<Payment>, refs: set<nat>, org: string): int {
    if ps == [] then 0 else
      var n := |ps| - 1;
      Bought(ps[..n], refs, org) + if n in refs && ps[n].org == org then ps[n].credits else 0
  }

  function Received(credits: seq<Credit>, org: string): int {
    if credits == [] then 0 else
      var n := |credits| - 1;
      Received(credits[..n], org) + if credits[n].org == org then credits[n].amount else 0
  }

  lemma {:induction false} BoughtDisjoint(ps: seq<Payment>, a: set<nat>, b: set<nat>, org: string)
    requires a !! b
    ensures Bought(ps, a + b, org) == Bought(ps, a, org) + Bought(ps, b, org)
  {
    if ps != [] {
      BoughtDisjoint(ps[..|ps| - 1], a, b, org);
    }
  }

  lemma {:induction false} BoughtOne(ps: seq<Payment>, ref: nat, org: string)
    ensures Bought(ps, {ref}, org) == if ref < |ps| && ps[ref].org == org then ps[ref].credits else 0
  {
    if ps != [] {
      BoughtOne(ps[..|ps| - 1], ref, org);
    }
  }

  lemma {:induction false} BoughtNone(ps: seq<Payment>, org: string)
    ensures Bought(ps, {}, org) == 0
  {
    if ps != [] {
      BoughtNone(ps[..|ps| - 1], org);
    }
  }

  /** Distinct, faithful credit rows add up to what their payments bought. */
  lemma {:induction false} ReceivedIsBought(ps: seq<Payment>, credits: seq<Credit>, org: string)
    requires forall a, b | 0 <= a < b < |credits| :: credits[a].ref != credits[b].ref
    requires forall c | c in credits :: c.ref < |ps| && c == Credit(c.ref, ps[c.ref].org, ps[c.ref].credits)
    ensures Received(credits, org) == Bought(ps, Granted(credits), org)
  {
    if credits == [] {
      assert Granted(credits) == {};
      BoughtNone(ps, org);
    } else {
      var n := |credits| - 1;
      var init, c := credits[..n], credits[n];
      assert c in credits && credits == init + [c];
      ReceivedIsBought(ps, init, org);
      GrantedSnoc(init, c);
      BoughtDisjoint(ps, Granted(init), {c.ref}, org);
      BoughtOne(ps, c.ref, org);
    }
  }

  lemma Accounts(s: State, org: string)
    requires Inv(s)
    ensures Bought(s.payments, PaidRefs(s.payments), org)
         == Received(s.credits, org) + Bought(s.payments, s.inFlight, org) + Bought(s.payments, s.forgone, org)
  {
    ReceivedIsBought(s.payments, s.credits, org);
    BoughtDisjoint(s.payments, Granted(s.credits), s.inFlight, org);
    BoughtDisjoint(s.payments, Granted(s.credits) + s.inFlight, s.forgone, org);
  }

  /** How many ledger rows payment `ref` has. */
  function Rows(credits: seq<Credit>, ref: nat): nat {
    if credits == [] then 0 else
      var n := |credits| - 1;
      Rows(credits[..n], ref) + if credits[n].ref == ref then 1 else 0
  }

  lemma {:induction false} RowsAtMostOne(credits: seq<Credit>, ref: nat)
    requires forall a, b | 0 <= a < b < |credits| :: credits[a].ref != credits[b].ref
    ensures Rows(credits, ref) == if ref in Granted(credits) then 1 else 0
  {
    if credits != [] {
      var n := |credits| - 1;
      RowsAtMostOne(credits[..n], ref);
      assert credits == credits[..n] + [credits[n]];
      GrantedSnoc(credits[..n], credits[n]);
      assert credits[n].ref !in Granted(credits[..n]);
    }
  }

  // ---------------------------------------------------------------- paid for before spent

  function Calls(spent: seq<string>, org: string): nat {
    if spent == [] then 0 else
      var n := |spent| - 1;
      Calls(spent[..n], org) + if spent[n] == org then 1 else 0
  }

  /** Starter credits an org has been given since `opening`. */
  function Starter(s: State, opening: Credits.State, org: string): int {
    Credits.SEED * (Credits.Seeds(s.bank, org) - Credits.Seeds(opening, org))
  }

  /** What an org has left is what it started with, plus its starter credits and granted top-ups, minus its calls. */
  ghost predicate Funded(s: State, opening: Credits.State, org: string) {
    && Credits.Seeds(opening, org) <= Credits.Seeds(s.bank, org)
    && Credits.Balance(s.bank.book, org)
       == Credits.Balance(opening.book, org) + Starter(s, opening, org) + Received(s.credits, org) - Calls(s.spent, org)
  }

  lemma GrantFunds(s: State, ref: nat, opening: Credits.State, org: string)
    requires Credits.Inv(s.bank) && ref < |s.payments| && 1 <= s.payments[ref].credits <= MAX_CREDITS
    requires Funded(s, opening, org)
    ensures Funded(Next(s, GrantStep(ref, true)), opening, org)
  {
    var p, s' := s.payments[ref], Next(s, GrantStep(ref, true));
    TopUpMoves(s.bank, p, org);
    var longer := s.credits + [Credit(ref, p.org, p.credits)];
    assert longer[..|s.credits|] == s.credits;
  }

  lemma TopUpMoves(bank: Credits.State, p: Payment, org: string)
    requires Credits.Inv(bank) && 1 <= p.credits <= MAX_CREDITS
    ensures var bank' := Credits.Next(bank, TopUp(p));
            && Credits.Seeds(bank', org) == Credits.Seeds(bank, org)
            && (Grantable(bank.book, p) ==>
                  Credits.Balance(bank'.book, org)
                  == Credits.Balance(bank.book, org) + if p.org == org then p.credits else 0)
  {
    assert Credits.Balanced(bank.book, p.org, Credits.Gap(bank, p.org));
    Credits.GrantExact(bank.book, p.org, p.credits, "topup", org);
  }

  lemma CallFunds(s: State, caller: string, opening: Credits.State, org: string)
    requires Credits.Inv(s.bank) && Funded(s, opening, org)
    ensures Funded(Next(s, CallStep(caller, true)), opening, org)
  {
    PerCallMoves(s.bank, caller, org);
    assert (s.spent + [caller])[..|s.spent|] == s.spent;
  }

  lemma PerCallMoves(bank: Credits.State, caller: string, org: string)
    requires Credits.Inv(bank)
    ensures var bank' := Credits.Next(bank, PerCall(caller));
            && Credits.Seeds(bank', org) == Credits.Seeds(bank, org)
            && (Chargeable(bank.book, caller) ==>
                  Credits.Balance(bank'.book, org) == Credits.Balance(bank.book, org) - if caller == org then 1 else 0)
  {
    assert Credits.Balanced(bank.book, caller, Credits.Gap(bank, caller));
    Credits.DeductExact(bank.book, caller, 1, "call", org);
  }

  lemma StepFunds(s: State, step: Step, opening: Credits.State, org: string)
    requires Inv(s) && Credits.Inv(s.bank) && Funded(s, opening, org)
    ensures Funded(Next(s, step), opening, org)
  {
    match step
    case GrantStep(ref, commits) =>
      if commits && ref < |s.payments| {
        assert s.payments[ref] in s.payments;
        GrantFunds(s, ref, opening, org);
      }
    case CallStep(caller, commits) =>
      if commits {
        CallFunds(s, caller, opening, org);
      }
    case EnterStep(owner, minted) => Credits.ProvisioningMoves(s.bank, Credits.Enter(owner, minted), org);
    case ProvisionStep(p, fate) => Credits.ProvisioningMoves(s.bank, Credits.Advance(p, fate), org);
    case _ =>
  }

  lemma StepKeepsBank(s: State, step: Step)
    requires Inv(s) && Credits.Inv(s.bank)
    ensures Credits.Inv(Next(s, step).bank)
  {
    match step
    case GrantStep(ref, commits) =>
      if ref < |s.payments| {
        assert s.payments[ref] in s.payments;
        Credits.Int32OfSmall(s.payments[ref].credits);
        Credits.StepKeepsInv(s.bank, TopUp(s.payments[ref]));
      }
    case CallStep(caller, commits) => Credits.StepKeepsInv(s.bank, PerCall(caller));
    case EnterStep(owner, minted) => Credits.StepKeepsInv(s.bank, Credits.Enter(owner, minted));
    case ProvisionStep(p, fate) => Credits.StepKeepsInv(s.bank, Credits.Advance(p, fate));
    case _ =>
  }

  lemma {:induction false} RunKeepsInv(opening: Credits.State, steps: seq<Step>)
    requires Credits.Inv(opening)
    ensures var s := Run(Opened(opening), steps);
            Inv(s) && Credits.Inv(s.bank) && forall org: string :: Funded(s, opening, org)
  {
    if steps != [] {
      var n := |steps| - 1;
      RunKeepsInv(opening, steps[..n]);
      var before := Run(Opened(opening), steps[..n]);
      StepKeepsInv(before, steps[n]);
      StepKeepsBank(before, steps[n]);
      forall org: string ensures Funded(Run(Opened(opening), steps), opening, org) {
        StepFunds(before, steps[n], opening, org);
      }
    }
  }

  lemma {:induction false} BoughtNotNegative(ps: seq<Payment>, refs: set<nat>, org: string)
    requires forall p | p in ps :: 1 <= p.credits <= MAX_CREDITS
    ensures Bought(ps, refs, org) >= 0
  {
    if ps != [] {
      BoughtNotNegative(ps[..|ps| - 1], refs, org);
      assert ps[|ps| - 1] in ps;
    }
  }

  /**
   Over every interleaving of checkouts, replayed and conflicting callbacks, calls, provisioning runs and failing
   steps: each payment is granted at most once and only if paid, and for every org the credits it has paid for are
   those it was granted plus those in flight or forgone.
   */
  lemma PaymentsAccounted(opening: Credits.State, steps: seq<Step>, org: string)
    requires Credits.Inv(opening)
    ensures var s := Run(Opened(opening), steps);
            && (forall ref: nat :: Rows(s.credits, ref) <= 1)
            && (forall ref: nat | Rows(s.credits, ref) > 0 :: ref < |s.payments| && s.payments[ref].status == Paid)
            && Bought(s.payments, PaidRefs(s.payments), org)
                 == Received(s.credits, org) + Bought(s.payments, s.inFlight, org) + Bought(s.payments, s.forgone, org)
  {
    var s := Run(Opened(opening), steps);
    RunKeepsInv(opening, steps);
    Accounts(s, org);
    forall ref: nat ensures Rows(s.credits, ref) == if ref in Granted(s.credits) then 1 else 0 {
      RowsAtMostOne(s.credits, ref);
    }
    assert forall ref: nat | ref in Granted(s.credits) :: ref in PaidRefs(s.payments);
  }

  /**
   Across settlement, metering and provisioning: in every such run, what an org has spent on calls and still has
   equals what it started with plus its starter credits, given at most once, plus its granted top-ups, and so never
   exceeds the first two plus what it has paid for.
   */
  lemma NeverSpendsUnpaid(opening: Credits.State, steps: seq<Step>, org: string)
    requires Credits.Inv(opening)
    ensures var s := Run(Opened(opening), steps);
            var used := Calls(s.spent, org) + Credits.Balance(s.bank.book, org);
            var given := Credits.Balance(opening.book, org) + Starter(s, opening, org);
            && 0 <= Credits.Balance(s.bank.book, org)
            && Starter(s, opening, org) in {0, 500}
            && used == given + Received(s.credits, org)
            && used <= given + Bought(s.payments, PaidRefs(s.payments), org)
  {
    var s := Run(Opened(opening), steps);
    RunKeepsInv(opening, steps);
    assert Funded(s, opening, org);
    PaidCoversReceived(s, org);
    StarterOnce(s, opening, org);
  }

  lemma PaidCoversReceived(s: State, org: string)
    requires Inv(s)
    ensures Received(s.credits, org) <= Bought(s.payments, PaidRefs(s.payments), org)
  {
    Accounts(s, org);
    BoughtNotNegative(s.payments, s.inFlight, org);
    BoughtNotNegative(s.payments, s.forgone, org);
  }

  lemma StarterOnce(s: State, opening: Credits.State, org: string)
    requires Credits.Inv(s.bank) && Funded(s, opening, org)
    ensures Starter(s, opening, org) in {0, Credits.SEED} && 0 <= Credits.Balance(s.bank.book, org)
  {
    Credits.SeedsAtMostOnce(s.bank, org);
    assert Credits.Balanced(s.bank.book, org, Credits.Gap(s.bank, org));
  }

  lemma {:induction false} FirstVerdictIsFinal(s: State, steps: seq<Step>)
    ensures VerdictsFinal(s, Run(s, steps))
  {
    if steps != [] {
      FirstVerdictIsFinal(s, steps[..|steps| - 1]);
    }
  }

  /**
   The first verdict that is stored is the one: a pending payment takes it, whatever it is, and keeps it over every
   continuation.
   */
  lemma VerdictSticks(s: State, ref: nat, verdict: Status, fate: Fate, steps: seq<Step>)
    requires ref < |s.payments| && s.payments[ref].status == Pending && !fate.Lost? && verdict != Pending
    ensures var s' := Run(Next(s, SettleStep(ref, verdict, fate)), steps);
            && ref < |s'.payments| && s'.payments[ref].status == verdict
            && s'.payments[ref].org == s.payments[ref].org && s'.payments[ref].credits == s.payments[ref].credits
  {
    FirstVerdictIsFinal(Next(s, SettleStep(ref, verdict, fate)), steps);
  }

  lemma {:induction false} RunFromKeepsInv(s: State, steps: seq<Step>)
    requires Inv(s)
    ensures Inv(Run(s, steps))
  {
    if steps != [] {
      RunFromKeepsInv(s, steps[..|steps| - 1]);
      StepKeepsInv(Run(s, steps[..|steps| - 1]), steps[|steps| - 1]);
    }
  }

  /** A payment first refused never has a ledger row, even if a callback says later that it is paid. */
  lemma RefusedForGood(s: State, ref: nat, fate: Fate, steps: seq<Step>)
    requires Inv(s) && ref < |s.payments| && s.payments[ref].status == Pending && !fate.Lost?
    ensures var s' := Run(Next(s, SettleStep(ref, Refused, fate)), steps);
            ref < |s'.payments| && s'.payments[ref].status == Refused && Rows(s'.credits, ref) == 0
  {
    var settled := Next(s, SettleStep(ref, Refused, fate));
    VerdictSticks(s, ref, Refused, fate, steps);
    StepKeepsInv(s, SettleStep(ref, Refused, fate));
    RunFromKeepsInv(settled, steps);
    var s' := Run(settled, steps);
    assert ref !in PaidRefs(s'.payments);
    RowsAtMostOne(s'.credits, ref);
  }

  /**
   No replay makes up for a grant that failed, or for a settlement whose reply was lost: over every run, such a payment
   stays paid and forgone, without a ledger row.
   */
  lemma {:induction false} ForgoneForGood(s: State, steps: seq<Step>, ref: nat)
    requires Inv(s) && ref in s.forgone
    ensures var s' := Run(s, steps);
            Inv(s') && ref in s'.forgone && ref < |s'.payments| && s'.payments[ref].status == Paid
            && Rows(s'.credits, ref) == 0
  {
    if steps != [] {
      var n := |steps| - 1;
      ForgoneForGood(s, steps[..n], ref);
      StepKeepsInv(Run(s, steps[..n]), steps[n]);
      StaysForgone(Run(s, steps[..n]), steps[n], ref);
    }
    ForgoneHasNoRow(Run(s, steps), ref);
  }

  lemma StaysForgone(s: State, step: Step, ref: nat)
    requires ref in s.forgone
    ensures ref in Next(s, step).forgone
  {
  }

  lemma ForgoneHasNoRow(s: State, ref: nat)
    requires Inv(s) && ref in s.forgone
    ensures ref < |s.payments| && s.payments[ref].status == Paid && Rows(s.credits, ref) == 0
  {
    assert ref in PaidRefs(s.payments) && ref !in Granted(s.credits);
    RowsAtMostOne(s.credits, ref);
  }

  lemma RunSnoc(s: State, steps: seq<Step>, step: Step)
    ensures Run(s, steps + [step]) == Next(Run(s, steps), step)
  {
    assert (steps + [step])[..|steps|] == steps;
  }

  /** A payment as its checkout leaves it, with the first verified callback about to settle it. */
  lemma CheckedOut(opening: Credits.State, org: string, amount: int)
    ensures var s := Run(Opened(opening), [CheckoutStep(org, amount)]);
            Inv(s) && s.payments == [Payment(org, Clamp(amount), Pending)] && s.inFlight == {}
  {
    var s := Opened(opening);
    RunSnoc(s, [], CheckoutStep(org, amount));
    assert [] + [CheckoutStep(org, amount)] == [CheckoutStep(org, amount)];
    StepKeepsInv(s, CheckoutStep(org, amount));
  }

  /** Confirmed by the gateway, but the settlement's reply is lost: never granted, whatever callbacks follow. */
  lemma UnheardIsNeverGranted(opening: Credits.State, org: string, amount: int, steps: seq<Step>)
    ensures var s := Run(Opened(opening), [CheckoutStep(org, amount)] + [SettleStep(0, Paid, Applied)]);
            Rows(Run(s, steps).credits, 0) == 0
  {
    var s0, settle := Run(Opened(opening), [CheckoutStep(org, amount)]), SettleStep(0, Paid, Applied);
    CheckedOut(opening, org, amount);
    RunSnoc(Opened(opening), [CheckoutStep(org, amount)], settle);
    StepKeepsInv(s0, settle);
    ForgoneForGood(Next(s0, settle), steps, 0);
  }

  /** Confirmed and settled, but the grant fails: the same. */
  lemma FailedGrantIsNeverMadeUp(opening: Credits.State, org: string, amount: int, steps: seq<Step>)
    ensures var settled := [CheckoutStep(org, amount)] + [SettleStep(0, Paid, Works)];
            Rows(Run(Run(Opened(opening), settled + [GrantStep(0, false)]), steps).credits, 0) == 0
  {
    var first, settle, grant := [CheckoutStep(org, amount)], SettleStep(0, Paid, Works), GrantStep(0, false);
    var s0 := Run(Opened(opening), first);
    CheckedOut(opening, org, amount);
    RunSnoc(Opened(opening), first, settle);
    RunSnoc(Opened(opening), first + [settle], grant);
    StepKeepsInv(s0, settle);
    StepKeepsInv(Next(s0, settle), grant);
    ForgoneForGood(Next(Next(s0, settle), grant), steps, 0);
  }

  /** An undisturbed settlement is the settling update followed by its grant. */
  lemma SettlementIsRun(s: State, ref: nat, verdict: Status, commits: bool)
    requires s.inFlight == {}
    ensures var s' := Run(s, [SettleStep(ref, verdict, Works), GrantStep(ref, commits)]);
            var due := ref < |s.payments| && s.payments[ref].status == Pending && verdict == Paid;
            && s'.payments == Settled(s.payments, ref, verdict) && s'.inFlight == {}
            && s'.credits == if due && commits && Grantable(s.bank.book, s.payments[ref])
                             then s.credits + [Credit(ref, s.payments[ref].org, s.payments[ref].credits)]
                             else s.credits
  {
    var steps := [SettleStep(ref, verdict, Works), GrantStep(ref, commits)];
    assert steps[..1] == [SettleStep(ref, verdict, Works)] && steps[..1][..0] == [];
    assert Run(s, steps[..1]) == Next(Run(s, []), SettleStep(ref, verdict, Works));
  }
}
