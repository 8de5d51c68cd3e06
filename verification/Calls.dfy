/**
 Placing calls: charge one credit, warn the merchant when the balance falls to the threshold, dial, record.

 Policy, telephony and database answers are arbitrary. The charge is a transaction of the credit book.
 */
module Calls {
  import opened Options
  import Credits
  import FlowEngine

  const PER_CALL := 1
  const THRESHOLD := 10

  // ---------------------------------------------------------------- one call

  datatype Error =
    | PolicyUnavailable | OutsideWindow | FlowMissing | FlowUnavailable | ChargeFailed | InsufficientCredits
    | DialFailed | RecordFailed | Panicked

  /** A recorded call: its status and result, and the webhook event committed with it, if any. */
  datatype Call = Call(org: string, status: string, result: string, event: Option<string>)

  datatype Act = Charge(org: string) | Warn(org: string, balance: int) | Dial(org: string) | Record(call: Call)

  predicate Crosses(balance: int) {
    balance <= THRESHOLD && balance + PER_CALL > THRESHOLD
  }

  /** All that a placed call does, in order, when nothing fails; `balance` is what the charge leaves. */
  function PlaceCallActs(org: string, balance: int): seq<Act> {
    [Charge(org)] + (if Crosses(balance) then [Warn(org, balance)] else [])
    + [Dial(org), Record(Call(org, "queued", "", None))]
  }

  function TestCallActs(org: string, out: FlowEngine.Outcome): seq<Act> {
    [Charge(org), Dial(org), Record(Call(org, out.status, out.result, Some("call." + out.status)))]
  }

  function ChargeOf(b: Credits.Book, org: string): Credits.Charge {
    Credits.Deduct(b, org, PER_CALL, "call")
  }

  /** The book after the charge of one call; a charge may commit although its caller is told otherwise. */
  function AfterCharge(b: Credits.Book, org: string, charge: Fate): Credits.Book {
    if ChargeOf(b, org).Charged? && !charge.Lost? then ChargeOf(b, org).book else b
  }

  /** How far a call gets through `acts` once its charge is committed: no further, not to the record, or all the way. */
  function Reached(acts: seq<Act>, charge: Fate, completes: bool): seq<Act>
    requires |acts| >= 3
  {
    if charge.Works? then if completes then acts else acts[..|acts| - 1] else acts[..1]
  }

  /** What a placed call does. */
  function PlaceCallDoes(b: Credits.Book, org: string, ready: bool, charge: Fate, completes: bool): seq<Act> {
    if !ready || !ChargeOf(b, org).Charged? || charge.Lost? then []
    else Reached(PlaceCallActs(org, ChargeOf(b, org).balance), charge, completes)
  }

  /** What a test call does; without an outcome it has nothing to record, and panics. */
  function TestCallDoes(b: Credits.Book, org: string, ready: bool, charge: Fate, out: Option<FlowEngine.Outcome>,
                        completes: bool): seq<Act>
  {
    if !ready || !ChargeOf(b, org).Charged? || charge.Lost? then []
    else if out.None? then Reached(TestCallActs(org, FlowEngine.Outcome("", "")), charge, false)
    else Reached(TestCallActs(org, out.value), charge, completes)
  }

  class Service {
    var book: Credits.Book
    var acts: seq<Act>

    constructor (book: Credits.Book)
      ensures this.book == book && acts == []
    {
      this.book, acts := book, [];
    }

    /**
     The job handler: charge one credit, warn if that leaves ten, dial, record the call as queued. It stops at the first
     thing that fails; a charge or record that is reported as failed may have taken effect.
     */
    method PlaceCall(org: string, policyFails: bool, allowed: bool, charge: Fate, dialFails: bool, record: Fate)
      returns (error: Option<Error>)
      modifies this
      ensures var ready, completes := !policyFails && allowed, !dialFails && !record.Lost?;
              && book == BookAfter(old(book), org, ready, charge)
              && acts == old(acts) + PlaceCallDoes(old(book), org, ready, charge, completes)
      ensures var c := Credits.Deduct(old(book), org, 1, "call");
              var queued := Record(Call(org, "queued", "", None));
              acts == old(acts) +
                if policyFails || !allowed || !c.Charged? || charge.Lost? then []
                else if charge.Applied? then [Charge(org)]
                else [Charge(org)] + (if c.balance == 10 then [Warn(org, 10)] else []) + [Dial(org)]
                     + if dialFails || record.Lost? then [] else [queued]
      ensures var c := Credits.Deduct(old(book), org, 1, "call");
              error ==
                if policyFails then Some(PolicyUnavailable)
                else if !allowed then Some(OutsideWindow)
                else if c.Insufficient? then Some(InsufficientCredits)
                else if c.Broken? || !charge.Works? then Some(ChargeFailed)
                else if dialFails then Some(DialFailed)
                else if !record.Works? then Some(RecordFailed) else None
    {
      if policyFails {
        return Some(PolicyUnavailable);
      }
      if !allowed {
        return Some(OutsideWindow);
      }
      var c := Credits.Deduct(book, org, PER_CALL, "call");
      if c.Insufficient? {
        return Some(InsufficientCredits);
      }
      if c.Broken? || charge.Lost? {
        return Some(ChargeFailed);
      }
      ghost var whole := PlaceCallActs(org, c.balance);
      book, acts := c.book, acts + [Charge(org)];
      if charge.Applied? {
        assert whole[..1] == [Charge(org)];
        return Some(ChargeFailed);
      }
      if c.balance <= THRESHOLD && c.balance + PER_CALL > THRESHOLD {
        acts := acts + [Warn(org, c.balance)];
      }
      acts := acts + [Dial(org)];
      assert acts == old(acts) + whole[..|whole| - 1];
      if dialFails {
        return Some(DialFailed);
      }
      if !record.Lost? {
        acts := acts + [Record(Call(org, "queued", "", None))];
      }
      error := if record.Works? then None else Some(RecordFailed);
    }

    /**
     The test call: charge one credit, dial, drive the flow with one keypress, record the outcome with its event. The
     code takes the outcome for granted, and panics if the keypress does not end the flow.
     */
    method RunTestCall(org: string, flow: Option<FlowEngine.Flow>, flowFails: bool, digit: string,
                       charge: Fate, dialFails: bool, record: Fate)
      returns (out: Option<FlowEngine.Outcome>, error: Option<Error>)
      modifies this
      ensures var ready, completes := !flowFails && flow.Some?, !dialFails && !record.Lost?;
              var outcome := if flow.Some? then FlowEngine.TestOutcome(flow.value, digit) else None;
              && book == BookAfter(old(book), org, ready, charge)
              && acts == old(acts) + TestCallDoes(old(book), org, ready, charge, outcome, completes)
              && out == if error.None? then outcome else None
      ensures var c := Credits.Deduct(old(book), org, 1, "call");
              acts == old(acts) +
                if flowFails || flow.None? || !c.Charged? || charge.Lost? then []
                else if charge.Applied? then [Charge(org)]
                else
                  var o := FlowEngine.TestOutcome(flow.value, digit);
                  [Charge(org), Dial(org)] +
                  if dialFails || o.None? || record.Lost? then []
                  else [Record(Call(org, o.value.status, o.value.result, Some("call." + o.value.status)))]
      ensures var c := Credits.Deduct(old(book), org, 1, "call");
              error ==
                if flowFails then Some(FlowUnavailable)
                else if flow.None? then Some(FlowMissing)
                else if c.Insufficient? then Some(InsufficientCredits)
                else if c.Broken? || !charge.Works? then Some(ChargeFailed)
                else if dialFails then Some(DialFailed)
                else if FlowEngine.TestOutcome(flow.value, digit).None? then Some(Panicked)
                else if !record.Works? then Some(RecordFailed) else None
    {
      if flowFails {
        return None, Some(FlowUnavailable);
      }
      if flow.None? {
        return None, Some(FlowMissing);
      }
      var c := Credits.Deduct(book, org, PER_CALL, "call");
      if c.Insufficient? {
        return None, Some(InsufficientCredits);
      }
      if c.Broken? || charge.Lost? {
        return None, Some(ChargeFailed);
      }
      book, acts := c.book, acts + [Charge(org)];
      if charge.Applied? {
        return None, Some(ChargeFailed);
      }
      acts := acts + [Dial(org)];
      if dialFails {
        return None, Some(DialFailed);
      }
      var d, st, o := FlowEngine.Start(flow.value);
      if o.None? {
        d, o := FlowEngine.OnDTMF(flow.value, st, digit);
      }
      if o.None? {
        return None, Some(Panicked);
      }
      if !record.Lost? {
        acts := acts + [Record(Call(org, o.value.status, o.value.result, Some("call." + o.value.status)))];
      }
      if !record.Works? {
        return None, Some(RecordFailed);
      }
      return o, None;
    }
  }

  // ---------------------------------------------------------------- low-balance warnings

  /** What happens to the book: the charge of a placed call or of a test call, or a grant. */
  datatype Move =
    | Placed(org: string, charge: Fate)
    | Tested(org: string, charge: Fate)
    | Topped(org: string, amount: int, commits: bool)

  function Moved(b: Credits.Book, m: Move): Credits.Book {
    match m
    case Topped(org, amount, commits) =>
      var g := Credits.Grant(b, org, amount, "topup");
      if commits && g.Some? then g.value else b
    case _ => AfterCharge(b, m.org, m.charge)
  }

  /** A placed call warns if its charge crosses the threshold and it learns that the charge was made. */
  predicate Warns(b: Credits.Book, m: Move) {
    && m.Placed? && m.charge.Works? && ChargeOf(b, m.org).Charged?
    && Warn(m.org, ChargeOf(b, m.org).balance) in PlaceCallActs(m.org, ChargeOf(b, m.org).balance)
  }

  function After(b: Credits.Book, ms: seq<Move>): Credits.Book {
    if ms == [] then b else Moved(After(b, ms[..|ms| - 1]), ms[|ms| - 1])
  }

  /** How often `org` is warned. */
  function Warnings(b: Credits.Book, ms: seq<Move>, org: string): nat {
    if ms == [] then 0 else
      var n := |ms| - 1;
      Warnings(b, ms[..n], org) + if ms[n].org == org && Warns(After(b, ms[..n]), ms[n]) then 1 else 0
  }

  /** A warning is one of the acts of such a call, whatever becomes of its dial and record. */
  lemma WarnsIsAnAct(b: Credits.Book, org: string, charge: Fate, completes: bool)
    ensures Warns(b, Placed(org, charge))
       <==> exists balance :: Warn(org, balance) in PlaceCallDoes(b, org, true, charge, completes)
  {
    var does := PlaceCallDoes(b, org, true, charge, completes);
    if ChargeOf(b, org).Charged? && !charge.Lost? {
      var balance := ChargeOf(b, org).balance;
      assert charge.Works? && Crosses(balance) ==> does[1] == Warn(org, balance);
      assert !Crosses(balance) || charge.Applied? ==> forall a | a in does :: !a.Warn?;
    }
  }

  lemma ChargeMoves(b: Credits.Book, org: string, charge: Fate, other: string)
    ensures var c := ChargeOf(b, org);
            && (1 <= Credits.Balance(b, org) <= Credits.MAX_INT4 ==> c.Charged?)
            && (c.Charged? ==> 1 <= Credits.Balance(b, org) && c.balance == Credits.Balance(b, org) - 1)
            && Credits.Balance(AfterCharge(b, org, charge), other)
               == Credits.Balance(b, other) - if c.Charged? && !charge.Lost? && other == org then 1 else 0
  {
  }

  /** The one balance at which a placed call warns. */
  lemma WarnsAt(b: Credits.Book, m: Move)
    ensures Warns(b, m)
       <==> m.Placed? && m.charge.Works? && ChargeOf(b, m.org).Charged? && Credits.Balance(b, m.org) == 11
  {
    if m.Placed? {
      ChargeMoves(b, m.org, m.charge, m.org);
      if ChargeOf(b, m.org).Charged? && Crosses(ChargeOf(b, m.org).balance) {
        var balance := ChargeOf(b, m.org).balance;
        assert PlaceCallActs(m.org, balance)[1] == Warn(m.org, balance);
      }
    }
  }

  /** A grant that raises the balance of `org`. */
  predicate Raises(m: Move, org: string) {
    m.Topped? && m.org == org && m.commits && Credits.Int32(m.amount) > 0
  }

  lemma MoveRaisesNothing(b: Credits.Book, m: Move, org: string)
    requires !Raises(m, org)
    ensures Credits.Balance(Moved(b, m), org) <= Credits.Balance(b, org)
  {
    if !m.Topped? {
      ChargeMoves(b, m.org, m.charge, org);
    }
  }

  lemma {:induction false} FallsWithoutGrant(b: Credits.Book, ms: seq<Move>, i: nat, org: string)
    requires i <= |ms| && forall k | i <= k < |ms| :: !Raises(ms[k], org)
    ensures Credits.Balance(After(b, ms), org) <= Credits.Balance(After(b, ms[..i]), org)
    decreases |ms|
  {
    if i < |ms| {
      var n := |ms| - 1;
      FallsWithoutGrant(b, ms[..n], i, org);
      assert ms[..n][..i] == ms[..i];
      MoveRaisesNothing(After(b, ms[..n]), ms[n], org);
    } else {
      assert ms[..i] == ms;
    }
  }

  /** Between any two charges that warn an org there is a committed grant of some credits to it. */
  lemma WarningsNeedGrantBetween(b: Credits.Book, ms: seq<Move>, i: nat, j: nat)
    requires i < j < |ms| && ms[i].org == ms[j].org
    requires Warns(After(b, ms[..i]), ms[i]) && Warns(After(b, ms[..j]), ms[j])
    ensures exists k :: i < k < j && Raises(ms[k], ms[i].org)
  {
    var org := ms[i].org;
    WarnsAt(After(b, ms[..i]), ms[i]);
    WarnsAt(After(b, ms[..j]), ms[j]);
    ChargeMoves(After(b, ms[..i]), org, ms[i].charge, org);
    assert ms[..j][..i + 1] == ms[..i + 1] && ms[..i + 1][..i] == ms[..i];
    if forall k | i < k < j :: !Raises(ms[k], org) {
      FallsWithoutGrant(b, ms[..j], i + 1, org);
    }
  }

  /** The charges of `org` that are committed if it has the credits, reported or not. */
  function Committed(ms: seq<Move>, org: string): seq<Move> {
    if ms == [] then [] else
      var n := |ms| - 1;
      var init := Committed(ms[..n], org);
      if ms[n].org == org && !ms[n].Topped? && !ms[n].charge.Lost? then init + [ms[n]] else init
  }

  /** What a fall comes to: the balance left, and the warnings given, after the charges `cs`. */
  ghost predicate Fallen(opening: int, cs: seq<Move>, left: int, warnings: nat) {
    var crossing := opening - THRESHOLD - 1;
    && left == (if |cs| < opening then opening - |cs| else 0)
    && warnings == if 0 <= crossing < |cs| && cs[crossing].Placed? && cs[crossing].charge.Works? then 1 else 0
  }

  lemma FallsOn(b: Credits.Book, m: Move, opening: int, cs: seq<Move>, org: string, warnings: nat)
    requires THRESHOLD < opening <= Credits.MAX_INT4 && m.org == org && !m.Topped?
    requires Fallen(opening, cs, Credits.Balance(b, org), warnings)
    ensures Fallen(opening, if m.charge.Lost? then cs else cs + [m], Credits.Balance(Moved(b, m), org),
                   warnings + if Warns(b, m) then 1 else 0)
  {
    WarnsAt(b, m);
    ChargeMoves(b, org, m.charge, org);
  }

  lemma OthersFallNothing(b: Credits.Book, m: Move, org: string)
    requires m.org != org
    ensures Credits.Balance(Moved(b, m), org) == Credits.Balance(b, org)
  {
    if !m.Topped? {
      ChargeMoves(b, m.org, m.charge, org);
    }
  }

  /**
   From above the threshold, and until the org is topped up, whatever happens to other orgs: the committed charge
   number `balance - THRESHOLD` is the one that reaches the threshold. The fall warns exactly once if that charge is
   a placed call's and its reply arrived, and otherwise never, however many charges follow.
   */
  lemma {:induction false} OneWarningPerFall(b: Credits.Book, ms: seq<Move>, org: string)
    requires THRESHOLD < Credits.Balance(b, org) <= Credits.MAX_INT4
    requires forall m | m in ms && m.org == org :: !m.Topped?
    ensures var opening, cs := Credits.Balance(b, org), Committed(ms, org);
            var crossing, left := opening - THRESHOLD - 1, Credits.Balance(After(b, ms), org);
            && Fallen(opening, cs, left, Warnings(b, ms, org))
            && (left <= THRESHOLD <==> crossing < |cs|)
            && Warnings(b, ms, org) <= 1
            && (Warnings(b, ms, org) == 1
                <==> left <= THRESHOLD && crossing < |cs| && cs[crossing].Placed? && cs[crossing].charge.Works?)
  {
    if ms != [] {
      var n := |ms| - 1;
      OneWarningPerFall(b, ms[..n], org);
      assert ms[n] in ms;
      var before := After(b, ms[..n]);
      if ms[n].org == org {
        FallsOn(before, ms[n], Credits.Balance(b, org), Committed(ms[..n], org), org, Warnings(b, ms[..n], org));
      } else {
        OthersFallNothing(before, ms[n], org);
      }
    }
  }

  /** A crossing charge whose reply is lost, and one by a test call, go unwarned, and so does every charge after it. */
  lemma SilentCrossings(org: string)
    ensures var b := Credits.Book(map[org := THRESHOLD + 1], []);
            var unheard, tested := [Placed(org, Applied), Placed(org, Works)], [Tested(org, Works), Placed(org, Works)];
            && Credits.Balance(After(b, unheard), org) == THRESHOLD - 1 && Warnings(b, unheard, org) == 0
            && Credits.Balance(After(b, tested), org) == THRESHOLD - 1 && Warnings(b, tested, org) == 0
  {
    var b := Credits.Book(map[org := THRESHOLD + 1], []);
    var last := Placed(org, Works);
    CommittedPair(Placed(org, Applied), last);
    CommittedPair(Tested(org, Works), last);
    OneWarningPerFall(b, [Placed(org, Applied), last], org);
    OneWarningPerFall(b, [Tested(org, Works), last], org);
  }

  lemma CommittedPair(first: Move, second: Move)
    requires first.org == second.org && !first.Topped? && !second.Topped?
    requires !first.charge.Lost? && !second.charge.Lost?
    ensures Committed([first, second], first.org) == [first, second]
  {
    assert [first, second][..1] == [first] && [first][..0] == [];
    assert Committed([first], first.org) == [first];
  }

  // ---------------------------------------------------------------- nothing is dialled unpaid

  datatype Pc = Checking | Charging | Dialling | Recording | Done

  datatype Proc = Proc(org: string, pc: Pc)

  /** What has happened to the calls of one org so far. */
  datatype Counts = Counts(attempted: nat, dialled: nat, recorded: nat)

  /** `bank` is the credit book that the calls are charged to, with the provisioning runs that share it. */
  datatype State = State(procs: seq<Proc>, bank: Credits.State, counts: map<string, Counts>)

  const EMPTY := State([], Credits.EMPTY, map[])

  /** A charge may commit although its caller is told otherwise: the call then stops, paid for. */
  datatype Step =
    | BankStep(step: Credits.Step)
    | EnterStep(org: string)
    | CheckStep(p: nat, ok: bool)
    | ChargeStep(p: nat, charge: Fate)
    | DialStep(p: nat, ok: bool)
    | RecordStep(p: nat, ok: bool)
    | CrashStep(p: nat)

  function CountsOf(s: State, org: string): Counts {
    if org in s.counts then s.counts[org] else Counts(0, 0, 0)
  }

  function Bump(s: State, org: string, c: Counts): State {
    s.(counts := s.counts[org := c])
  }

  function At(s: State, p: nat, pc: Pc): State
    requires p < |s.procs|
  {
    s.(procs := s.procs[p := s.procs[p].(pc := pc)])
  }

  predicate IsAt(s: State, p: nat, pc: Pc) {
    p < |s.procs| && s.procs[p].pc == pc
  }

  /** Only the two kinds of call write ledger rows for the reason "call". */
  predicate NotForCalls(step: Credits.Step) {
    (step.DeductStep? || step.GrantStep?) ==> step.reason != "call"
  }

  function Charged(s: State, org: string): State {
    s.(bank := Credits.Next(s.bank, Credits.DeductStep(org, PER_CALL, "call", true)))
  }

  function Next(s: State, step: Step): State {
    match step
    case BankStep(step) => if NotForCalls(step) then s.(bank := Credits.Next(s.bank, step)) else s
    case EnterStep(org) => s.(procs := s.procs + [Proc(org, Checking)])
    case CheckStep(p, ok) => if !IsAt(s, p, Checking) then s else At(s, p, if ok then Charging else Done)
    case ChargeStep(p, charge) =>
      if !IsAt(s, p, Charging) then s else
        var org := s.procs[p].org;
        if charge.Lost? || !ChargeOf(s.bank.book, org).Charged? then At(s, p, Done)
        else At(Charged(s, org), p, if charge.Works? then Dialling else Done)
    case DialStep(p, ok) =>
      if !IsAt(s, p, Dialling) then s else
        var org := s.procs[p].org;
        var c := CountsOf(s, org);
        if ok then At(Bump(s, org, c.(attempted := c.attempted + 1, dialled := c.dialled + 1)), p, Recording)
        else At(Bump(s, org, c.(attempted := c.attempted + 1)), p, Done)
    case RecordStep(p, ok) =>
      if !IsAt(s, p, Recording) then s else
        var org := s.procs[p].org;
        var c := CountsOf(s, org);
        At(if ok then Bump(s, org, c.(recorded := c.recorded + 1)) else s, p, Done)
    case CrashStep(p) => if p < |s.procs| then At(s, p, Done) else s
  }

  function Run(s: State, steps: seq<Step>): State {
    if steps == [] then s else Next(Run(s, steps[..|steps| - 1]), steps[|steps| - 1])
  }

  // What the ledger says about calls.

  /** The ledger rows of `org` for the reason "call". */
  function CallRows(ledger: seq<Credits.Entry>, org: string): nat {
    if ledger == [] then 0 else
      var n := |ledger| - 1;
      CallRows(ledger[..n], org) + One(ledger[n].org == org && ledger[n].reason == "call")
  }

  /** All that was ever added to the balance of `org`, by the ledger. */
  function Credited(ledger: seq<Credits.Entry>, org: string): int {
    if ledger == [] then 0 else
      var n := |ledger| - 1;
      Credited(ledger[..n], org) + if ledger[n].org == org && ledger[n].delta > 0 then ledger[n].delta else 0
  }

  ghost predicate CallsBooked(ledger: seq<Credits.Entry>) {
    forall i | 0 <= i < |ledger| && ledger[i].reason == "call" :: ledger[i].delta == -PER_CALL
  }

  lemma {:induction false} CallsAreTakenOff(ledger: seq<Credits.Entry>, org: string)
    requires CallsBooked(ledger)
    ensures Credits.Sum(ledger, org) <= Credited(ledger, org) - CallRows(ledger, org)
  {
    if ledger != [] {
      CallsAreTakenOff(ledger[..|ledger| - 1], org);
    }
  }

  /** The ledger is unchanged, or has one more row that is not for a call. */
  ghost predicate NoCallBooked(ledger: seq<Credits.Entry>, ledger': seq<Credits.Entry>) {
    ledger' == ledger
    || (|ledger'| == |ledger| + 1 && ledger'[..|ledger|] == ledger && ledger'[|ledger|].reason != "call")
  }

  lemma BankBooksNoCall(bank: Credits.State, step: Credits.Step)
    requires NotForCalls(step)
    ensures NoCallBooked(bank.book.ledger, Credits.Next(bank, step).book.ledger)
  {
    assert "signup_grant"[0] != "call"[0];
  }

  lemma NoCallKeepsRows(ledger: seq<Credits.Entry>, ledger': seq<Credits.Entry>, org: string)
    requires CallsBooked(ledger) && NoCallBooked(ledger, ledger')
    ensures CallsBooked(ledger') && CallRows(ledger', org) == CallRows(ledger, org)
  {
    assert ledger' != ledger ==> forall i | 0 <= i < |ledger| :: ledger'[i] == ledger'[..|ledger|][i];
  }

  lemma ChargeBooksOneCall(s: State, caller: string, org: string)
    requires ChargeOf(s.bank.book, caller).Charged? && CallsBooked(s.bank.book.ledger)
    ensures var ledger, ledger' := s.bank.book.ledger, Charged(s, caller).bank.book.ledger;
            CallsBooked(ledger') && CallRows(ledger', org) == CallRows(ledger, org) + One(caller == org)
  {
    var ledger, ledger' := s.bank.book.ledger, Charged(s, caller).bank.book.ledger;
    assert ledger' == ledger + [Credits.Entry(caller, -PER_CALL, "call")];
    assert ledger'[..|ledger|] == ledger;
  }

  // Counting the calls under way.

  function CountAt(procs: seq<Proc>, org: string, pc: Pc): nat {
    if procs == [] then 0 else
      CountAt(procs[..|procs| - 1], org, pc) + if procs[|procs| - 1] == Proc(org, pc) then 1 else 0
  }

  function One(b: bool): nat {
    if b then 1 else 0
  }

  lemma {:induction false} CountMoves(procs: seq<Proc>, p: nat, moved: Proc, org: string, pc: Pc)
    requires p < |procs|
    ensures CountAt(procs[p := moved], org, pc) + One(procs[p] == Proc(org, pc))
         == CountAt(procs, org, pc) + One(moved == Proc(org, pc))
  {
    var n := |procs| - 1;
    if p < n {
      CountMoves(procs[..n], p, moved, org, pc);
      assert procs[p := moved][..n] == procs[..n][p := moved];
    } else {
      assert procs[p := moved][..n] == procs[..n];
    }
  }

  /** How far the calls of an org have got: rows in the ledger, and counts. */
  datatype Tally = Tally(charged: nat, attempted: nat, dialled: nat, recorded: nat)

  function TallyOf(s: State, org: string): Tally {
    var c := CountsOf(s, org);
    Tally(CallRows(s.bank.book.ledger, org), c.attempted, c.dialled, c.recorded)
  }

  /** Every charge not yet used belongs to a call about to dial; every dial not yet recorded to one about to record. */
  ghost predicate Accounted(s: State, org: string) {
    var t := TallyOf(s, org);
    && CallsBooked(s.bank.book.ledger)
    && t.attempted + CountAt(s.procs, org, Dialling) <= t.charged
    && t.dialled <= t.attempted
    && t.recorded + CountAt(s.procs, org, Recording) <= t.dialled
  }

  lemma MoveAccounted(s: State, s': State, p: nat, org: string)
    requires Accounted(s, org) && p < |s.procs| == |s'.procs| && CallsBooked(s'.bank.book.ledger)
    requires s'.procs == s.procs[p := s'.procs[p]] && s'.procs[p].org == s.procs[p].org
    requires var t, t', from, to := TallyOf(s, org), TallyOf(s', org), s.procs[p].pc, s'.procs[p].pc;
             var mine := s.procs[p].org == org;
             && t'.dialled <= t'.attempted
             && t'.charged - t.charged
                >= t'.attempted - t.attempted + One(mine && to == Dialling) - One(mine && from == Dialling)
             && t'.dialled - t.dialled
                >= t'.recorded - t.recorded + One(mine && to == Recording) - One(mine && from == Recording)
    ensures Accounted(s', org)
  {
    CountMoves(s.procs, p, s'.procs[p], org, Dialling);
    CountMoves(s.procs, p, s'.procs[p], org, Recording);
  }

  lemma BankAccounted(s: State, step: Credits.Step, org: string)
    requires Accounted(s, org)
    ensures Accounted(Next(s, BankStep(step)), org)
  {
    if NotForCalls(step) {
      BankBooksNoCall(s.bank, step);
      NoCallKeepsRows(s.bank.book.ledger, Credits.Next(s.bank, step).book.ledger, org);
    }
  }

  lemma EnterAccounted(s: State, o: string, org: string)
    requires Accounted(s, org)
    ensures Accounted(Next(s, EnterStep(o)), org)
  {
    assert (s.procs + [Proc(o, Checking)])[..|s.procs|] == s.procs;
  }

  lemma ChargeAccounted(s: State, p: nat, charge: Fate, org: string)
    requires Accounted(s, org)
    ensures Accounted(Next(s, ChargeStep(p, charge)), org)
  {
    if IsAt(s, p, Charging) {
      var caller := s.procs[p].org;
      if !charge.Lost? && ChargeOf(s.bank.book, caller).Charged? {
        ChargeBooksOneCall(s, caller, org);
      }
      MoveAccounted(s, Next(s, ChargeStep(p, charge)), p, org);
    }
  }

  lemma DialAccounted(s: State, p: nat, ok: bool, org: string)
    requires Accounted(s, org)
    ensures Accounted(Next(s, DialStep(p, ok)), org)
  {
    if IsAt(s, p, Dialling) {
      MoveAccounted(s, Next(s, DialStep(p, ok)), p, org);
    }
  }

  lemma RecordAccounted(s: State, p: nat, ok: bool, org: string)
    requires Accounted(s, org)
    ensures Accounted(Next(s, RecordStep(p, ok)), org)
  {
    if IsAt(s, p, Recording) {
      MoveAccounted(s, Next(s, RecordStep(p, ok)), p, org);
    }
  }

  lemma StopAccounted(s: State, p: nat, pc: Pc, org: string)
    requires Accounted(s, org) && p < |s.procs| && pc in {Charging, Done}
    ensures Accounted(At(s, p, pc), org)
  {
    MoveAccounted(s, At(s, p, pc), p, org);
  }

  lemma CheckAccounted(s: State, p: nat, ok: bool, org: string)
    requires Accounted(s, org)
    ensures Accounted(Next(s, CheckStep(p, ok)), org)
  {
    if IsAt(s, p, Checking) {
      StopAccounted(s, p, if ok then Charging else Done, org);
    }
  }

  lemma CrashAccounted(s: State, p: nat, org: string)
    requires Accounted(s, org)
    ensures Accounted(Next(s, CrashStep(p)), org)
  {
    if p < |s.procs| {
      StopAccounted(s, p, Done, org);
    }
  }

  lemma StepAccounted(s: State, step: Step, org: string)
    requires Accounted(s, org)
    ensures Accounted(Next(s, step), org)
  {
    match step
    case BankStep(b) => BankAccounted(s, b, org);
    case EnterStep(o) => EnterAccounted(s, o, org);
    case CheckStep(p, ok) => CheckAccounted(s, p, ok, org);
    case ChargeStep(p, charge) => ChargeAccounted(s, p, charge, org);
    case DialStep(p, ok) => DialAccounted(s, p, ok, org);
    case RecordStep(p, ok) => RecordAccounted(s, p, ok, org);
    case CrashStep(p) => CrashAccounted(s, p, org);
  }

  /** Grants add credits: none wraps around to take some away. */
  predicate GrantsCredits(step: Step) {
    step.BankStep? && step.step.GrantStep? ==> Credits.Int32(step.step.amount) >= 0
  }

  lemma StepKeepsBank(s: State, step: Step)
    requires Credits.Inv(s.bank) && GrantsCredits(step)
    ensures Credits.Inv(Next(s, step).bank)
  {
    match step
    case BankStep(b) => Credits.StepKeepsInv(s.bank, b);
    case ChargeStep(p, _) =>
      if p < |s.procs| {
        Credits.StepKeepsInv(s.bank, Credits.DeductStep(s.procs[p].org, PER_CALL, "call", true));
      }
    case _ =>
  }

  lemma {:induction false} RunAccounted(steps: seq<Step>, org: string)
    requires forall step | step in steps :: GrantsCredits(step)
    ensures var s := Run(EMPTY, steps); Accounted(s, org) && Credits.Inv(s.bank)
  {
    if steps == [] {
      Credits.EmptyIsOk();
    } else {
      var n := |steps| - 1;
      RunAccounted(steps[..n], org);
      assert steps[n] in steps;
      StepAccounted(Run(EMPTY, steps[..n]), steps[n], org);
      StepKeepsBank(Run(EMPTY, steps[..n]), steps[n]);
    }
  }

  /**
   At every point of every interleaving of placed calls, test calls, grants, other charges and provisioning runs on one
   credit book, with failures and crashes anywhere: recorded calls <= answered dials <= dial attempts <= ledger rows
   for calls <= all credits the ledger has ever added, and the starter credits if their row is missing; for each org.
   */
  lemma NothingDialledUnpaid(steps: seq<Step>, org: string)
    requires forall step | step in steps :: GrantsCredits(step)
    ensures var s := Run(EMPTY, steps);
            var t := TallyOf(s, org);
            && t.recorded <= t.dialled <= t.attempted <= t.charged
            && t.charged <= Credited(s.bank.book.ledger, org) + Credits.Gap(s.bank, org)
  {
    var s := Run(EMPTY, steps);
    RunAccounted(steps, org);
    CallsAreTakenOff(s.bank.book.ledger, org);
    assert Credits.Balanced(s.bank.book, org, Credits.Gap(s.bank, org));
  }

  // ---------------------------------------------------------------- the service's calls are such runs

  /** A tally with `acts` added; acts do not tell whether a dial was answered. */
  function Tallied(t: Tally, acts: seq<Act>): Tally {
    if acts == [] then t else
      var before := Tallied(t, acts[..|acts| - 1]);
      match acts[|acts| - 1]
      case Charge(_) => before.(charged := before.charged + 1)
      case Dial(_) => before.(attempted := before.attempted + 1)
      case Record(_) => before.(recorded := before.recorded + 1)
      case Warn(_, _) => before
  }

  function Steps(p: nat, ready: bool, charge: Fate, dialOk: bool, recordOk: bool): seq<Step> {
    [CheckStep(p, ready), ChargeStep(p, charge), DialStep(p, dialOk), RecordStep(p, recordOk)]
  }

  lemma FourSteps(s: State, a: Step, b: Step, c: Step, d: Step)
    ensures Run(s, [a, b, c, d]) == Next(Next(Next(Next(s, a), b), c), d)
  {
    assert [a, b, c, d][..3] == [a, b, c] && [a, b, c][..2] == [a, b] && [a, b][..1] == [a] && [a][..0] == [];
    assert Run(s, [a]) == Next(Run(s, []), a);
    assert Run(s, [a, b]) == Next(Run(s, [a]), b);
    assert Run(s, [a, b, c]) == Next(Run(s, [a, b]), c);
  }

  predicate Pays(b: Credits.Book, org: string, ready: bool, charge: Fate) {
    ready && ChargeOf(b, org).Charged? && !charge.Lost?
  }

  /** A tally one call later. */
  function Later(t: Tally, pays: bool, dials: bool, answered: bool, records: bool): Tally {
    Tally(t.charged + One(pays), t.attempted + One(dials), t.dialled + One(answered), t.recorded + One(records))
  }

  function BookAfter(b: Credits.Book, org: string, ready: bool, charge: Fate): Credits.Book {
    if ready then AfterCharge(b, org, charge) else b
  }

  lemma PayingTally(s: State, p: nat, ready: bool, charge: Fate)
    requires IsAt(s, p, Checking) && CallsBooked(s.bank.book.ledger)
    ensures var org, s' := s.procs[p].org, Next(Next(s, CheckStep(p, ready)), ChargeStep(p, charge));
            var pays := Pays(s.bank.book, org, ready, charge);
            && |s'.procs| == |s.procs| && s'.procs[p] == Proc(org, if pays && charge.Works? then Dialling else Done)
            && s'.bank.book == BookAfter(s.bank.book, org, ready, charge)
            && TallyOf(s', org) == Later(TallyOf(s, org), pays, false, false, false)
  {
    var org, s1 := s.procs[p].org, Next(s, CheckStep(p, ready));
    assert s1.procs[p] == Proc(org, if ready then Charging else Done);
    if Pays(s.bank.book, org, ready, charge) {
      ChargeBooksOneCall(s1, org, org);
    }
  }

  function LaterCounts(c: Counts, dials: bool, answered: bool, records: bool): Counts {
    Counts(c.attempted + One(dials), c.dialled + One(answered), c.recorded + One(records))
  }

  lemma DialCounts(s: State, p: nat, dialOk: bool)
    requires p < |s.procs| && s.procs[p].pc in {Dialling, Done}
    ensures var org, s', dials := s.procs[p].org, Next(s, DialStep(p, dialOk)), s.procs[p].pc == Dialling;
            && s'.bank == s.bank && |s'.procs| == |s.procs|
            && s'.procs[p] == Proc(org, if dials && dialOk then Recording else Done)
            && CountsOf(s', org) == LaterCounts(CountsOf(s, org), dials, dials && dialOk, false)
  {
  }

  lemma RecordCounts(s: State, p: nat, recordOk: bool)
    requires p < |s.procs| && s.procs[p].pc in {Recording, Done}
    ensures var org, s', records := s.procs[p].org, Next(s, RecordStep(p, recordOk)), s.procs[p].pc == Recording;
            s'.bank == s.bank && CountsOf(s', org) == LaterCounts(CountsOf(s, org), false, false, records && recordOk)
  {
  }

  lemma CountsTally(s: State, s': State, org: string, dials: bool, answered: bool, records: bool)
    requires s'.bank == s.bank && CountsOf(s', org) == LaterCounts(CountsOf(s, org), dials, answered, records)
    ensures TallyOf(s', org) == Later(TallyOf(s, org), false, dials, answered, records)
  {
  }

  lemma DiallingTally(s: State, p: nat, dialOk: bool, recordOk: bool)
    requires p < |s.procs| && s.procs[p].pc in {Dialling, Done}
    ensures var org, s' := s.procs[p].org, Next(Next(s, DialStep(p, dialOk)), RecordStep(p, recordOk));
            var dials := s.procs[p].pc == Dialling;
            && s'.bank == s.bank
            && TallyOf(s', org) == Later(TallyOf(s, org), false, dials, dials && dialOk, dials && dialOk && recordOk)
  {
    var org, s1, dials := s.procs[p].org, Next(s, DialStep(p, dialOk)), s.procs[p].pc == Dialling;
    DialCounts(s, p, dialOk);
    RecordCounts(s1, p, recordOk);
    CountsTally(s, Next(s1, RecordStep(p, recordOk)), org, dials, dials && dialOk, dials && dialOk && recordOk);
  }

  /** The book and tally left by a call that is charged or not, dials or not, and so on. */
  lemma StepsTally(s: State, p: nat, ready: bool, charge: Fate, dialOk: bool, recordOk: bool)
    requires IsAt(s, p, Checking) && CallsBooked(s.bank.book.ledger)
    ensures var org, s' := s.procs[p].org, Run(s, Steps(p, ready, charge, dialOk, recordOk));
            var pays := Pays(s.bank.book, org, ready, charge);
            var dials := pays && charge.Works?;
            && s'.bank.book == BookAfter(s.bank.book, org, ready, charge)
            && TallyOf(s', org) == Later(TallyOf(s, org), pays, dials, dials && dialOk, dials && dialOk && recordOk)
  {
    var steps := Steps(p, ready, charge, dialOk, recordOk);
    PayingTally(s, p, ready, charge);
    DiallingTally(Next(Next(s, steps[0]), steps[1]), p, dialOk, recordOk);
    FourSteps(s, steps[0], steps[1], steps[2], steps[3]);
  }

  lemma ReachedTally(t: Tally, acts: seq<Act>, charge: Fate, completes: bool)
    requires 3 <= |acts| <= 4 && !charge.Lost? && acts[0].Charge? && (|acts| == 4 ==> acts[1].Warn?)
    requires acts[|acts| - 2].Dial? && acts[|acts| - 1].Record?
    ensures Tallied(t, Reached(acts, charge, completes))
         == t.(charged := t.charged + 1, attempted := t.attempted + One(charge.Works?),
               recorded := t.recorded + One(charge.Works? && completes))
  {
    var n := |acts|;
    assert acts[..n] == acts && acts[..0] == [];
    assert acts[..1][..0] == acts[..0] && acts[..2][..1] == acts[..1] && acts[..3][..2] == acts[..2];
    assert n == 4 ==> acts[..4][..3] == acts[..3];
    assert Tallied(t, acts[..1]) == t.(charged := t.charged + 1);
    if n == 4 {
      assert Tallied(t, acts[..2]) == Tallied(t, acts[..1]);
    }
    assert Tallied(t, acts[..n - 1]) == t.(charged := t.charged + 1, attempted := t.attempted + 1);
  }

  lemma PlaceCallTally(t: Tally, b: Credits.Book, org: string, ready: bool, charge: Fate, completes: bool)
    ensures var pays := Pays(b, org, ready, charge);
            var dials := pays && charge.Works?;
            Tallied(t, PlaceCallDoes(b, org, ready, charge, completes))
            == Later(t, pays, dials, false, dials && completes)
  {
    if Pays(b, org, ready, charge) {
      ReachedTally(t, PlaceCallActs(org, ChargeOf(b, org).balance), charge, completes);
    }
  }

  lemma TestCallTally(t: Tally, b: Credits.Book, org: string, ready: bool, charge: Fate,
                      out: Option<FlowEngine.Outcome>, completes: bool)
    ensures var pays := Pays(b, org, ready, charge);
            var dials := pays && charge.Works?;
            Tallied(t, TestCallDoes(b, org, ready, charge, out, completes))
            == Later(t, pays, dials, false, dials && completes && out.Some?)
  {
    if Pays(b, org, ready, charge) {
      var whole := TestCallActs(org, if out.Some? then out.value else FlowEngine.Outcome("", ""));
      ReachedTally(t, whole, charge, completes && out.Some?);
    }
  }

  /** What a placed call of the service does to the book and in acts, undisturbed, is what its steps do. */
  lemma PlacedCallIsRun(s: State, p: nat, ready: bool, charge: Fate, dialOk: bool, recordOk: bool)
    requires IsAt(s, p, Checking) && CallsBooked(s.bank.book.ledger)
    ensures var org, s' := s.procs[p].org, Run(s, Steps(p, ready, charge, dialOk, recordOk));
            var t := TallyOf(s, org);
            && s'.bank.book == BookAfter(s.bank.book, org, ready, charge)
            && TallyOf(s', org).(dialled := t.dialled)
               == Tallied(t, PlaceCallDoes(s.bank.book, org, ready, charge, dialOk && recordOk))
  {
    StepsTally(s, p, ready, charge, dialOk, recordOk);
    PlaceCallTally(TallyOf(s, s.procs[p].org), s.bank.book, s.procs[p].org, ready, charge, dialOk && recordOk);
  }

  /** The same for a test call, with an outcome to record or without. */
  lemma TestCallIsRun(s: State, p: nat, ready: bool, charge: Fate, dialOk: bool, recordOk: bool,
                      out: Option<FlowEngine.Outcome>)
    requires IsAt(s, p, Checking) && CallsBooked(s.bank.book.ledger)
    ensures var org, s' := s.procs[p].org, Run(s, Steps(p, ready, charge, dialOk, recordOk && out.Some?));
            var t := TallyOf(s, org);
            && s'.bank.book == BookAfter(s.bank.book, org, ready, charge)
            && TallyOf(s', org).(dialled := t.dialled)
               == Tallied(t, TestCallDoes(s.bank.book, org, ready, charge, out, dialOk && recordOk))
  {
    var t, b, org := TallyOf(s, s.procs[p].org), s.bank.book, s.procs[p].org;
    var dials := Pays(b, org, ready, charge) && charge.Works?;
    var records := dials && dialOk && recordOk && out.Some?;
    StepsTally(s, p, ready, charge, dialOk, recordOk && out.Some?);
    TestCallTally(t, b, org, ready, charge, out, dialOk && recordOk);
    LaterUndialled(t, Pays(b, org, ready, charge), dials, dials && dialOk, records);
  }

  lemma LaterUndialled(t: Tally, pays: bool, dials: bool, answered: bool, records: bool)
    ensures Later(t, pays, dials, answered, records).(dialled := t.dialled) == Later(t, pays, dials, false, records)
  {
  }
}
