/**
 Prepaid credits: a balance per org and an append-only ledger, changed by charges, grants and the one-time
 starter credits of a newly provisioned org.

 Charges and grants are transactions. Provisioning (`EnsureForUser`) is a sequence of separate statements, run by
 any number of concurrent requests, any of which may fail with or without having taken effect.
 */
module Credits {
  import opened Options

  const MAX_INT4 := 0x7fff_ffff
  const MIN_INT4 := -0x8000_0000
  const SEED := 500

  predicate FitsColumn(x: int) {
    MIN_INT4 <= x <= MAX_INT4
  }

  /** Conversion to a 32-bit integer wraps around. */
  function Int32(x: int): int {
    if FitsColumn(x) then x else (x - MIN_INT4) % 0x1_0000_0000 + MIN_INT4
  }

  datatype Entry = Entry(org: string, delta: int, reason: string)

  datatype Book = Book(balances: map<string, int>, ledger: seq<Entry>)

  function Balance(b: Book, org: string): int {
    if org in b.balances then b.balances[org] else 0
  }

  function Sum(ledger: seq<Entry>, org: string): int {
    if ledger == [] then 0 else
      var e := ledger[|ledger| - 1];
      Sum(ledger[..|ledger| - 1], org) + if e.org == org then e.delta else 0
  }

  lemma SumSnoc(ledger: seq<Entry>, e: Entry, org: string)
    ensures Sum(ledger + [e], org) == Sum(ledger, org) + if e.org == org then e.delta else 0
  {
    assert (ledger + [e])[..|ledger|] == ledger;
  }

  // ---------------------------------------------------------------- transactions

  datatype Charge = Charged(book: Book, balance: int) | Insufficient | Broken

  /** The charge transaction: the conditional update, then the ledger row. An overflowing column is an error. */
  function Deduct(b: Book, org: string, amount: int, reason: string): Charge {
    if org !in b.balances || b.balances[org] < Int32(amount) then Insufficient else
      var left := b.balances[org] - Int32(amount);
      if !FitsColumn(left) then Broken
      else Charged(Book(b.balances[org := left], b.ledger + [Entry(org, Int32(-amount), reason)]), left)
  }

  function Grant(b: Book, org: string, amount: int, reason: string): Option<Book> {
    var raised := Balance(b, org) + Int32(amount);
    if !FitsColumn(raised) then None
    else Some(Book(b.balances[org := raised], b.ledger + [Entry(org, Int32(amount), reason)]))
  }

  /** The balance runs ahead of the ledger by `gap`, and is never negative. */
  ghost predicate Balanced(b: Book, org: string, gap: int) {
    Balance(b, org) == Sum(b.ledger, org) + gap && 0 <= Balance(b, org) <= MAX_INT4
  }

  lemma NegatedWrap(amount: int)
    ensures Int32(-amount) == -Int32(amount) || Int32(amount) == MIN_INT4
  {
  }

  lemma EntryBalanced(b: Book, org: string, delta: int, reason: string, other: string, gap: int)
    requires Balanced(b, other, gap) && (org == other ==> 0 <= Balance(b, org) + delta <= MAX_INT4)
    ensures var balances, ledger := b.balances[org := Balance(b, org) + delta], b.ledger + [Entry(org, delta, reason)];
            Balanced(Book(balances, ledger), other, gap)
  {
    SumSnoc(b.ledger, Entry(org, delta, reason), other);
  }

  /** A charge of any amount, including one that wraps, keeps the books balanced. */
  lemma DeductBalanced(b: Book, org: string, amount: int, reason: string, other: string, gap: int)
    requires Deduct(b, org, amount, reason).Charged? && Balanced(b, other, gap) && 0 <= Balance(b, org)
    ensures Balanced(Deduct(b, org, amount, reason).book, other, gap)
  {
    var taken, delta := Int32(amount), Int32(-amount);
    assert taken != MIN_INT4;
    assert delta == -taken by { NegatedWrap(amount); }
    EntryBalanced(b, org, delta, reason, other, gap);
  }

  lemma GrantBalanced(b: Book, org: string, amount: int, reason: string, other: string, gap: int)
    requires Grant(b, org, amount, reason).Some? && Balanced(b, other, gap) && Int32(amount) >= 0
    ensures Balanced(Grant(b, org, amount, reason).value, other, gap)
  {
    SumSnoc(b.ledger, Entry(org, Int32(amount), reason), other);
  }

  lemma Int32OfSmall(x: int)
    requires MIN_INT4 < x <= MAX_INT4
    ensures Int32(x) == x && Int32(-x) == -x
  {
  }

  /** An ordinary charge goes through exactly when the account covers it, and moves that many credits and no others. */
  lemma DeductExact(b: Book, org: string, amount: int, reason: string, other: string)
    requires 0 <= amount <= MAX_INT4 && Balance(b, org) <= MAX_INT4
    ensures var c := Deduct(b, org, amount, reason);
            && (c.Charged? <==> org in b.balances && amount <= Balance(b, org))
            && (!c.Charged? ==> c.Insufficient?)
            && (c.Charged? ==>
                  && c.balance == Balance(c.book, org)
                  && Balance(c.book, other) == Balance(b, other) - (if other == org then amount else 0)
                  && c.book.ledger == b.ledger + [Entry(org, -amount, reason)])
  {
    Int32OfSmall(amount);
  }

  /** An ordinary grant fails only when the balance would not fit its column, and opens the account if need be. */
  lemma GrantExact(b: Book, org: string, amount: int, reason: string, other: string)
    requires 0 <= amount <= MAX_INT4 && 0 <= Balance(b, org)
    ensures var g := Grant(b, org, amount, reason);
            && (g.Some? <==> Balance(b, org) + amount <= MAX_INT4)
            && (g.Some? ==>
                  && org in g.value.balances
                  && Balance(g.value, other) == Balance(b, other) + (if other == org then amount else 0)
                  && g.value.ledger == b.ledger + [Entry(org, amount, reason)])
  {
    Int32OfSmall(amount);
  }

  /** The repository object; `begins` and `commit` say how a transaction's first statement and its commit go. */
  class CreditRepo {
    var balances: map<string, int>
    var ledger: seq<Entry>

    constructor ()
      ensures balances == map[] && ledger == []
    {
      balances, ledger := map[], [];
    }

    function Contents(): Book
      reads this
    {
      Book(balances, ledger)
    }

    /** A charge that is not `ok` and has not `failed` is one the account does not cover. */
    method TryDeduct(org: string, amount: int, reason: string, begins: bool, commit: Fate)
      returns (ok: bool, balance: int, failed: bool)
      modifies this
      ensures var c := Deduct(old(Contents()), org, amount, reason);
              && Contents() == (if begins && c.Charged? && !commit.Lost? then c.book else old(Contents()))
              && (ok <==> begins && c.Charged? && commit.Works?)
              && balance == (if ok then c.balance else 0)
              && (!ok && !failed <==> begins && c.Insufficient?)
    {
      if !begins {
        return false, 0, true;
      }
      if org !in balances || balances[org] < Int32(amount) {
        return false, 0, false;
      }
      var left := balances[org] - Int32(amount);
      if !FitsColumn(left) || commit.Lost? {
        return false, 0, true;
      }
      balances := balances[org := left];
      ledger := ledger + [Entry(org, Int32(-amount), reason)];
      if commit.Applied? {
        return false, 0, true;
      }
      return true, left, false;
    }

    method GrantCredits(org: string, amount: int, reason: string, begins: bool, commit: Fate)
      returns (balance: int, failed: bool)
      modifies this
      ensures var g := Grant(old(Contents()), org, amount, reason);
              && Contents() == (if begins && g.Some? && !commit.Lost? then g.value else old(Contents()))
              && (failed <==> !begins || g.None? || !commit.Works?)
              && balance == if failed then 0 else Balance(Contents(), org)
    {
      if !begins {
        return 0, true;
      }
      var raised := (if org in balances then balances[org] else 0) + Int32(amount);
      if !FitsColumn(raised) || commit.Lost? {
        return 0, true;
      }
      balances := balances[org := raised];
      ledger := ledger + [Entry(org, Int32(amount), reason)];
      return if commit.Works? then raised else 0, !commit.Works?;
    }
  }

  // ---------------------------------------------------------------- concurrent provisioning

  datatype Pc = Reading | Creating | Rereading | Opening | Seeding | Booking | Finished

  /** One run of `EnsureForUser`, with the org id it minted. */
  datatype Proc = Proc(owner: string, org: string, pc: Pc)

  /**
   `unbooked`: orgs whose starter credits are in the balance without a ledger row. `seeders`: the runs that
   have added starter credits, in order.
   */
  datatype State = State(
    book: Book, orgs: map<string, string>, procs: seq<Proc>, unbooked: set<string>, seeders: seq<nat>)

  const EMPTY := State(Book(map[], []), map[], [], {}, [])

  datatype Step =
    | DeductStep(org: string, amount: int, reason: string, commits: bool)
    | GrantStep(org: string, amount: int, reason: string, commits: bool)
    | Enter(owner: string, org: string)
    | Advance(p: nat, fate: Fate)

  predicate Minted(s: State, org: string) {
    exists k :: 0 <= k < |s.procs| && s.procs[k].org == org
  }

  function At(s: State, p: nat, pc: Pc): State
    requires p < |s.procs|
  {
    s.(procs := s.procs[p := s.procs[p].(pc := pc)])
  }

  function AdvanceProc(s: State, p: nat, fate: Fate): State
    requires p < |s.procs|
  {
    var Proc(owner, org, pc) := s.procs[p];
    match pc
    case Reading => At(s, p, if fate.Works? && owner !in s.orgs then Creating else Finished)
    case Creating =>
      var s := if fate.Lost? || owner in s.orgs then s else s.(orgs := s.orgs[owner := org]);
      At(s, p, if fate.Works? then Rereading else Finished)
    case Rereading =>
      At(s, p, if fate.Works? && owner in s.orgs && s.orgs[owner] == org then Opening else Finished)
    case Opening =>
      var s := if fate.Lost? || org in s.book.balances then s
               else s.(book := s.book.(balances := s.book.balances[org := 0]));
      At(s, p, Seeding)
    case Seeding =>
      if fate.Lost? || org !in s.book.balances || !FitsColumn(s.book.balances[org] + SEED) then At(s, p, Finished)
      else
        var balances := s.book.balances[org := s.book.balances[org] + SEED];
        At(s.(book := s.book.(balances := balances), unbooked := s.unbooked + {org}, seeders := s.seeders + [p]),
           p, if fate.Works? then Booking else Finished)
    case Booking =>
      if fate.Lost? then At(s, p, Finished)
      else
        var ledger := s.book.ledger + [Entry(org, SEED, "signup_grant")];
        At(s.(book := s.book.(ledger := ledger), unbooked := s.unbooked - {org}), p, Finished)
    case Finished => s
  }

  function Next(s: State, step: Step): State {
    match step
    case DeductStep(org, amount, reason, commits) =>
      var c := Deduct(s.book, org, amount, reason);
      if c.Charged? && commits then s.(book := c.book) else s
    case GrantStep(org, amount, reason, commits) =>
      var b := Grant(s.book, org, amount, reason);
      if b.Some? && commits then s.(book := b.value) else s
    case Enter(owner, org) =>
      if Minted(s, org) then s else s.(procs := s.procs + [Proc(owner, org, Reading)])
    case Advance(p, fate) => if p < |s.procs| then AdvanceProc(s, p, fate) else s
  }

  function Run(s: State, steps: seq<Step>): State {
    if steps == [] then s else Next(Run(s, steps[..|steps| - 1]), steps[|steps| - 1])
  }

  // ---------------------------------------------------------------- the invariant

  function Gap(s: State, org: string): int {
    if org in s.unbooked then SEED else 0
  }

  ghost predicate BooksOk(s: State) {
    forall org: string :: Balanced(s.book, org, Gap(s, org))
  }

  /** The run owns its owner's org. */
  predicate Won(s: State, p: nat)
    requires p < |s.procs|
  {
    s.procs[p].owner in s.orgs && s.orgs[s.procs[p].owner] == s.procs[p].org
  }

  ghost predicate ProcsOk(s: State) {
    && (forall p, q | 0 <= p < q < |s.procs| :: s.procs[p].org != s.procs[q].org)
    && (forall p | 0 <= p < |s.procs| && s.procs[p].pc in {Opening, Seeding, Booking} :: Won(s, p))
    && (forall p | 0 <= p < |s.procs| && s.procs[p].pc == Booking :: p in s.seeders && s.procs[p].org in s.unbooked)
  }

  ghost predicate SeedersOk(s: State) {
    && (forall k | 0 <= k < |s.seeders| ::
          s.seeders[k] < |s.procs| && Won(s, s.seeders[k]) && s.procs[s.seeders[k]].pc in {Booking, Finished})
    && (forall k, l | 0 <= k < l < |s.seeders| :: s.seeders[k] != s.seeders[l])
    && (forall org | org in s.unbooked ::
          exists k :: 0 <= k < |s.seeders| && s.seeders[k] < |s.procs| && s.procs[s.seeders[k]].org == org)
  }

  ghost predicate Inv(s: State) {
    BooksOk(s) && ProcsOk(s) && SeedersOk(s)
  }

  lemma TransactionsKeepBooks(s: State, step: Step)
    requires BooksOk(s) && (step.DeductStep? || (step.GrantStep? && Int32(step.amount) >= 0))
    ensures BooksOk(Next(s, step))
  {
    var s' := Next(s, step);
    forall org: string ensures Balanced(s'.book, org, Gap(s', org)) {
      assert Balanced(s.book, org, Gap(s, org)) && Balanced(s.book, step.org, Gap(s, step.org));
      if step.DeductStep? {
        if Deduct(s.book, step.org, step.amount, step.reason).Charged? {
          DeductBalanced(s.book, step.org, step.amount, step.reason, org, Gap(s, org));
        }
      } else if Grant(s.book, step.org, step.amount, step.reason).Some? {
        GrantBalanced(s.book, step.org, step.amount, step.reason, org, Gap(s, org));
      }
    }
  }

  /** A run about to seed has not seeded before, and nobody else seeds its org. */
  lemma NotYetSeeded(s: State, p: nat)
    requires Inv(s) && p < |s.procs| && s.procs[p].pc == Seeding
    ensures p !in s.seeders && s.procs[p].org !in s.unbooked
  {
    if s.procs[p].org in s.unbooked {
      var k :| 0 <= k < |s.seeders| && s.seeders[k] < |s.procs| && s.procs[s.seeders[k]].org == s.procs[p].org;
      assert false;
    }
  }

  lemma AdvanceKeepsBook(s: State, p: nat, fate: Fate, org: string)
    requires p < |s.procs| && Balanced(s.book, org, Gap(s, org))
    requires s.procs[p].pc == Seeding ==> s.procs[p].org !in s.unbooked
    requires s.procs[p].pc == Booking ==> s.procs[p].org in s.unbooked
    ensures var s' := AdvanceProc(s, p, fate); Balanced(s'.book, org, Gap(s', org))
  {
    SumSnoc(s.book.ledger, Entry(s.procs[p].org, SEED, "signup_grant"), org);
  }

  lemma AdvanceKeepsBooks(s: State, p: nat, fate: Fate)
    requires Inv(s) && p < |s.procs|
    ensures BooksOk(AdvanceProc(s, p, fate))
  {
    if s.procs[p].pc == Seeding {
      NotYetSeeded(s, p);
    }
    var s' := AdvanceProc(s, p, fate);
    forall org: string ensures Balanced(s'.book, org, Gap(s', org)) {
      assert Balanced(s.book, org, Gap(s, org));
      AdvanceKeepsBook(s, p, fate, org);
    }
  }

  /** What one statement of run `p` may change besides the books. */
  ghost predicate Frame(s: State, s': State, p: nat) {
    && p < |s.procs| == |s'.procs|
    && (forall q | 0 <= q < |s.procs| && q != p :: s'.procs[q] == s.procs[q])
    && s'.procs[p].owner == s.procs[p].owner && s'.procs[p].org == s.procs[p].org
    && (forall o | o in s.orgs :: o in s'.orgs && s'.orgs[o] == s.orgs[o])
    && (s'.procs[p].pc in {Opening, Seeding, Booking} ==> Won(s', p))
    && (s.procs[p].pc in {Booking, Finished} ==> s'.procs[p].pc == Finished)
    && if s'.seeders == s.seeders
       then s'.procs[p].pc != Booking && s'.unbooked <= s.unbooked <= s'.unbooked + {s.procs[p].org}
       else && s'.seeders == s.seeders + [p] && s'.unbooked == s.unbooked + {s.procs[p].org}
            && s'.procs[p].pc in {Booking, Finished} && Won(s', p) && p !in s.seeders
  }

  lemma AdvanceFrame(s: State, p: nat, fate: Fate)
    requires Inv(s) && p < |s.procs|
    ensures Frame(s, AdvanceProc(s, p, fate), p)
  {
    if s.procs[p].pc == Seeding {
      NotYetSeeded(s, p);
    }
  }

  lemma FrameKeepsProcs(s: State, s': State, p: nat)
    requires ProcsOk(s) && Frame(s, s', p)
    ensures ProcsOk(s')
  {
    forall q | 0 <= q < |s'.procs| && s'.procs[q].pc == Booking
      ensures q in s'.seeders && s'.procs[q].org in s'.unbooked
    {
      if q == p {
        assert s'.seeders[|s.seeders|] == p;
      } else {
        assert q in s.seeders;
      }
    }
  }

  lemma FrameKeepsSeeders(s: State, s': State, p: nat)
    requires SeedersOk(s) && Frame(s, s', p)
    ensures SeedersOk(s')
  {
    forall k | 0 <= k < |s.seeders|
      ensures s'.seeders[k] == s.seeders[k] && Won(s', s.seeders[k])
      ensures s'.procs[s.seeders[k]].pc in {Booking, Finished}
    {
    }
    forall org | org in s'.unbooked
      ensures exists k :: 0 <= k < |s'.seeders| && s'.seeders[k] < |s'.procs| && s'.procs[s'.seeders[k]].org == org
    {
      if org in s.unbooked {
        var k :| 0 <= k < |s.seeders| && s.seeders[k] < |s.procs| && s.procs[s.seeders[k]].org == org;
        assert s'.procs[s'.seeders[k]].org == org;
      } else {
        assert s'.seeders[|s.seeders|] == p;
      }
    }
  }

  /** Only a new run at its start has been added. */
  ghost predicate Joined(s: State, s': State) {
    && s' == s.(procs := s'.procs) && |s'.procs| == |s.procs| + 1 && s'.procs[..|s.procs|] == s.procs
    && s'.procs[|s.procs|].pc == Reading && !Minted(s, s'.procs[|s.procs|].org)
  }

  lemma JoinedKeepsProcs(s: State, s': State)
    requires ProcsOk(s) && Joined(s, s')
    ensures ProcsOk(s')
  {
    assert forall p: nat | p < |s.procs| :: s'.procs[p] == s.procs[p] && s'.procs[p].org != s'.procs[|s.procs|].org;
  }

  lemma JoinedKeepsSeeders(s: State, s': State)
    requires SeedersOk(s) && Joined(s, s')
    ensures SeedersOk(s')
  {
    assert forall p: nat | p < |s.procs| :: s'.procs[p] == s.procs[p];
    forall o | o in s'.unbooked
      ensures exists k :: 0 <= k < |s'.seeders| && s'.seeders[k] < |s'.procs| && s'.procs[s'.seeders[k]].org == o
    {
      var k :| 0 <= k < |s.seeders| && s.seeders[k] < |s.procs| && s.procs[s.seeders[k]].org == o;
      assert s'.procs[s'.seeders[k]].org == o;
    }
  }

  lemma EnterKeepsInv(s: State, owner: string, org: string)
    requires Inv(s)
    ensures Inv(Next(s, Enter(owner, org)))
  {
    var s' := Next(s, Enter(owner, org));
    if s' != s {
      assert Joined(s, s');
      JoinedKeepsProcs(s, s');
      JoinedKeepsSeeders(s, s');
      forall o: string ensures Balanced(s'.book, o, Gap(s', o)) {
        assert Balanced(s.book, o, Gap(s, o));
      }
    }
  }

  lemma StepKeepsInv(s: State, step: Step)
    requires Inv(s) && (step.GrantStep? ==> Int32(step.amount) >= 0)
    ensures Inv(Next(s, step))
  {
    match step
    case Enter(owner, org) => EnterKeepsInv(s, owner, org);
    case Advance(p, fate) =>
      if p < |s.procs| {
        AdvanceKeepsBooks(s, p, fate);
        AdvanceFrame(s, p, fate);
        FrameKeepsProcs(s, AdvanceProc(s, p, fate), p);
        FrameKeepsSeeders(s, AdvanceProc(s, p, fate), p);
      }
    case DeductStep(_, _, _, _) =>
      TransactionsKeepBooks(s, step);
      OthersUntouched(s, step);
    case GrantStep(_, _, _, _) =>
      TransactionsKeepBooks(s, step);
      OthersUntouched(s, step);
  }

  lemma OthersUntouched(s: State, step: Step)
    requires ProcsOk(s) && SeedersOk(s) && (step.DeductStep? || step.GrantStep?)
    ensures ProcsOk(Next(s, step)) && SeedersOk(Next(s, step))
  {
    var s' := Next(s, step);
    assert s'.procs == s.procs && s'.orgs == s.orgs && s'.seeders == s.seeders && s'.unbooked == s.unbooked;
    assert forall p: nat | p < |s.procs| :: Won(s', p) == Won(s, p);
  }

  ghost predicate GrantsAreCredits(steps: seq<Step>) {
    forall step | step in steps :: step.GrantStep? ==> Int32(step.amount) >= 0
  }

  /**
   In every interleaving of charges, grants and provisioning runs, with failures anywhere: no balance is negative;
   each balance is its ledger sum, plus the starter credits if their ledger row is missing; and no two runs for the
   same owner ever add starter credits.
   */
  lemma {:induction false} LedgerConserved(steps: seq<Step>)
    requires GrantsAreCredits(steps)
    ensures var s := Run(EMPTY, steps);
            && Inv(s)
            && (forall org: string ::
                  && 0 <= Balance(s.book, org)
                  && Balance(s.book, org) - Sum(s.book.ledger, org) in {0, 500})
            && (forall k, l | 0 <= k < l < |s.seeders| :: s.procs[s.seeders[k]].owner != s.procs[s.seeders[l]].owner)
  {
    var s := Run(EMPTY, steps);
    if steps != [] {
      var n := |steps| - 1;
      LedgerConserved(steps[..n]);
      assert steps[n] in steps;
      StepKeepsInv(Run(EMPTY, steps[..n]), steps[n]);
    } else {
      EmptyIsOk();
    }
    InvMeans(s);
  }

  lemma EmptyIsOk()
    ensures Inv(EMPTY)
  {
    forall org: string ensures Balanced(EMPTY.book, org, Gap(EMPTY, org)) {
    }
  }

  lemma InvMeans(s: State)
    requires Inv(s)
    ensures forall org: string ::
              && 0 <= Balance(s.book, org)
              && Balance(s.book, org) - Sum(s.book.ledger, org) in {0, SEED}
    ensures forall k, l | 0 <= k < l < |s.seeders| :: s.procs[s.seeders[k]].owner != s.procs[s.seeders[l]].owner
  {
    forall org: string
      ensures 0 <= Balance(s.book, org)
      ensures Balance(s.book, org) - Sum(s.book.ledger, org) in {0, SEED}
    {
      assert Balanced(s.book, org, Gap(s, org));
    }
    forall k, l | 0 <= k < l < |s.seeders| ensures s.procs[s.seeders[k]].owner != s.procs[s.seeders[l]].owner {
      assert Won(s, s.seeders[k]) && Won(s, s.seeders[l]) && s.seeders[k] != s.seeders[l];
    }
  }

  // ---------------------------------------------------------------- counting the seeds

  /** How many times the runs listed in `seeders` have given `org` its starter credits. */
  function SeedsIn(procs: seq<Proc>, seeders: seq<nat>, org: string): nat {
    if seeders == [] then 0 else
      var n := |seeders| - 1;
      SeedsIn(procs, seeders[..n], org) + if seeders[n] < |procs| && procs[seeders[n]].org == org then 1 else 0
  }

  function Seeds(s: State, org: string): nat {
    SeedsIn(s.procs, s.seeders, org)
  }

  lemma {:induction false} SeedsSameOrgs(procs: seq<Proc>, procs': seq<Proc>, seeders: seq<nat>, org: string)
    requires |procs| <= |procs'| && forall p | 0 <= p < |procs| :: procs'[p].org == procs[p].org
    requires forall k | 0 <= k < |seeders| :: seeders[k] < |procs|
    ensures SeedsIn(procs', seeders, org) == SeedsIn(procs, seeders, org)
  {
    if seeders != [] {
      SeedsSameOrgs(procs, procs', seeders[..|seeders| - 1], org);
    }
  }

  lemma {:induction false} SeedsOnce(procs: seq<Proc>, seeders: seq<nat>, org: string)
    requires forall p, q | 0 <= p < q < |procs| :: procs[p].org != procs[q].org
    requires forall k, l | 0 <= k < l < |seeders| :: seeders[k] != seeders[l]
    requires forall k | 0 <= k < |seeders| :: seeders[k] < |procs|
    ensures SeedsIn(procs, seeders, org) <= 1
    ensures (forall k | 0 <= k < |seeders| :: procs[seeders[k]].org != org) ==> SeedsIn(procs, seeders, org) == 0
  {
    if seeders != [] {
      var n := |seeders| - 1;
      SeedsOnce(procs, seeders[..n], org);
      if procs[seeders[n]].org == org {
        assert forall k | 0 <= k < n :: procs[seeders[..n][k]].org != org;
      }
    }
  }

  /** No org is ever given its starter credits twice. */
  lemma SeedsAtMostOnce(s: State, org: string)
    requires Inv(s)
    ensures Seeds(s, org) <= 1
  {
    SeedsOnce(s.procs, s.seeders, org);
  }

  /** The statements of a provisioning run move a balance only by seeding it. */
  lemma ProvisioningMoves(s: State, step: Step, org: string)
    requires Inv(s) && (step.Enter? || step.Advance?)
    ensures var s' := Next(s, step);
            && Seeds(s, org) <= Seeds(s', org)
            && Balance(s'.book, org) == Balance(s.book, org) + SEED * (Seeds(s', org) - Seeds(s, org))
  {
    if step.Advance? && step.p < |s.procs| {
      AdvanceFrame(s, step.p, step.fate);
      FrameSeeds(s, Next(s, step), step.p, org);
      AdvanceMoves(s, step.p, step.fate, org);
    } else if step.Enter? {
      SeedsSameOrgs(s.procs, Next(s, step).procs, s.seeders, org);
    }
  }

  lemma FrameSeeds(s: State, s': State, p: nat, org: string)
    requires SeedersOk(s) && Frame(s, s', p)
    ensures Seeds(s', org) == Seeds(s, org) + if s'.seeders != s.seeders && s.procs[p].org == org then 1 else 0
  {
    SeedsSameOrgs(s.procs, s'.procs, s.seeders, org);
    if s'.seeders != s.seeders {
      assert s'.seeders[..|s.seeders|] == s.seeders;
    }
  }

  lemma AdvanceMoves(s: State, p: nat, fate: Fate, org: string)
    requires p < |s.procs|
    ensures var s' := AdvanceProc(s, p, fate);
            Balance(s'.book, org)
            == Balance(s.book, org) + if s'.seeders != s.seeders && s.procs[p].org == org then SEED else 0
  {
  }

  /** After five statements that work, a run for a new owner has created the org and seeded it. */
  lemma SeedsInFive(s: State, p: nat)
    requires p < |s.procs| && s.procs[p].pc == Reading
    requires s.procs[p].owner !in s.orgs && s.procs[p].org !in s.book.balances
    ensures var Proc(owner, org, _) := s.procs[p];
            Repeated(s, Advance(p, Works), 5)
            == State(Book(s.book.balances[org := SEED], s.book.ledger), s.orgs[owner := org],
                     s.procs[p := Proc(owner, org, Booking)], s.unbooked + {org}, s.seeders + [p])
  {
    var Proc(owner, org, _) := s.procs[p];
    var step := Advance(p, Works);
    assert Repeated(s, step, 0) == s;
    var s1 := Repeated(s, step, 1);
    assert s1 == s.(procs := s.procs[p := Proc(owner, org, Creating)]);
    var s2 := Repeated(s, step, 2);
    assert s2 == s.(orgs := s.orgs[owner := org], procs := s.procs[p := Proc(owner, org, Rereading)]);
    var s3 := Repeated(s, step, 3);
    assert s3 == s2.(procs := s.procs[p := Proc(owner, org, Opening)]);
    var s4 := Repeated(s, step, 4);
    var open := Book(s.book.balances[org := 0], s.book.ledger);
    assert s4 == s3.(book := open, procs := s.procs[p := Proc(owner, org, Seeding)]);
    assert s.book.balances[org := 0][org := SEED] == s.book.balances[org := SEED];
  }

  /** A run for a new owner, alone and without failures, creates the org, seeds it and books the seed. */
  lemma ProvisioningCompletes(s: State, p: nat)
    requires p < |s.procs| && s.procs[p].pc == Reading
    requires s.procs[p].owner !in s.orgs && s.procs[p].org !in s.book.balances
    ensures var Proc(owner, org, _) := s.procs[p];
            var s' := Run(s, seq(6, _ => Advance(p, Works)));
            && |s'.procs| == |s.procs| && s'.procs[p].pc == Finished && s'.orgs == s.orgs[owner := org]
            && s'.book.balances == s.book.balances[org := 500]
            && s'.book.ledger == s.book.ledger + [Entry(org, 500, "signup_grant")]
            && s'.seeders == s.seeders + [p]
  {
    SeedsInFive(s, p);
    RepeatedIsRun(s, Advance(p, Works), 6);
    assert Repeated(s, Advance(p, Works), 6) == Next(Repeated(s, Advance(p, Works), 5), Advance(p, Works));
  }

  /** The starter credits can be in the balance without their ledger row, whose error is discarded. */
  lemma GapIsReached(owner: string, org: string)
    ensures var steps := [Enter(owner, org)] + seq(5, _ => Advance(0, Works)) + [Advance(0, Lost)];
            var s := Run(EMPTY, steps);
            Balance(s.book, org) == SEED && s.book.ledger == [] && s.procs == [Proc(owner, org, Finished)]
  {
    var five := seq(5, _ => Advance(0, Works));
    var steps := [Enter(owner, org)] + five + [Advance(0, Lost)];
    var entered := EMPTY.(procs := [Proc(owner, org, Reading)]);
    assert Run(EMPTY, [Enter(owner, org)]) == Next(Run(EMPTY, []), Enter(owner, org)) == entered;
    RunConcat(EMPTY, [Enter(owner, org)], five);
    RepeatedIsRun(entered, Advance(0, Works), 5);
    SeedsInFive(entered, 0);
    var seeded := Run(EMPTY, [Enter(owner, org)] + five);
    assert seeded.procs == [Proc(owner, org, Booking)];
    assert steps[..6] == [Enter(owner, org)] + five;
    assert Run(EMPTY, steps) == Next(seeded, Advance(0, Lost));
  }

  lemma {:induction false} RunConcat(s: State, xs: seq<Step>, ys: seq<Step>)
    ensures Run(s, xs + ys) == Run(Run(s, xs), ys)
  {
    if ys == [] {
      assert xs + ys == xs;
    } else {
      var init, y := ys[..|ys| - 1], ys[|ys| - 1];
      RunConcat(s, xs, init);
      RunSnoc(s, xs + init, y);
      RunSnoc(Run(s, xs), init, y);
      assert (xs + init) + [y] == xs + ys && init + [y] == ys;
    }
  }

  lemma RunSnoc(s: State, steps: seq<Step>, step: Step)
    ensures Run(s, steps + [step]) == Next(Run(s, steps), step)
  {
    assert (steps + [step])[..|steps|] == steps;
  }

  function Repeated(s: State, step: Step, n: nat): State {
    if n == 0 then s else Next(Repeated(s, step, n - 1), step)
  }

  lemma {:induction false} RepeatedIsRun(s: State, step: Step, n: nat)
    ensures Repeated(s, step, n) == Run(s, seq(n, _ => step))
  {
    if n > 0 {
      RepeatedIsRun(s, step, n - 1);
      assert seq(n, _ => step)[..n - 1] == seq(n - 1, _ => step);
    }
  }

  // ---------------------------------------------------------------- provisioning as one request sees it

  /** Run `p` by itself for `n` statements, each going as `fates` says. */
  function Alone(s: State, p: nat, fates: Pc -> Fate, n: nat): (s': State)
    requires p < |s.procs|
    ensures |s'.procs| == |s.procs|
  {
    if n == 0 then s else
      var before := Alone(s, p, fates, n - 1);
      AdvanceProc(before, p, fates(before.procs[p].pc))
  }

  lemma {:induction false} AloneIsRun(s: State, p: nat, fates: Pc -> Fate, n: nat) returns (steps: seq<Step>)
    requires p < |s.procs|
    ensures |steps| == n && Run(s, steps) == Alone(s, p, fates, n)
  {
    steps := [];
    if n > 0 {
      steps := AloneIsRun(s, p, fates, n - 1);
      var step := Advance(p, fates(Alone(s, p, fates, n - 1).procs[p].pc));
      assert (steps + [step])[..n - 1] == steps;
      steps := steps + [step];
    }
  }

  lemma FinishedAlone(s: State, p: nat, fates: Pc -> Fate, n: nat)
    requires p < |s.procs| && Alone(s, p, fates, n).procs[p].pc == Finished
    ensures Alone(s, p, fates, n + 1) == Alone(s, p, fates, n)
  {
    FinishedStays(Alone(s, p, fates, n), p, fates(Finished));
  }

  lemma FinishedStays(s: State, p: nat, fate: Fate)
    requires p < |s.procs| && s.procs[p].pc == Finished
    ensures AdvanceProc(s, p, fate) == s
  {
  }

  /** What the three seeding statements leave of the book, for an org without an account. */
  function SeededBook(b: Book, org: string, fates: Pc -> Fate): Book {
    if fates(Opening).Lost? then b
    else if fates(Seeding).Lost? then b.(balances := b.balances[org := 0])
    else Book(b.balances[org := SEED],
              if fates(Seeding).Works? && !fates(Booking).Lost? then b.ledger + [Entry(org, SEED, "signup_grant")]
              else b.ledger)
  }

  lemma SeedsAlone(s: State, p: nat, fates: Pc -> Fate, n: nat)
    requires p < |s.procs| && Alone(s, p, fates, n).procs[p].pc == Opening
    requires Alone(s, p, fates, n).procs[p].org !in Alone(s, p, fates, n).book.balances
    ensures var s0, s' := Alone(s, p, fates, n), Alone(s, p, fates, n + 3);
            s'.orgs == s0.orgs && s'.book == SeededBook(s0.book, s0.procs[p].org, fates)
  {
    var s0 := Alone(s, p, fates, n);
    var org := s0.procs[p].org;
    var s1 := Alone(s, p, fates, n + 1);
    assert s1 == AdvanceProc(s0, p, fates(Opening));
    assert s1.procs[p] == s0.procs[p].(pc := Seeding);
    var s2 := Alone(s, p, fates, n + 2);
    assert s2 == AdvanceProc(s1, p, fates(Seeding));
    assert s0.book.balances[org := 0][org := SEED] == s0.book.balances[org := SEED];
    assert Alone(s, p, fates, n + 3) == AdvanceProc(s2, p, fates(s2.procs[p].pc));
  }

  function ProvisionedOrgs(orgs: map<string, string>, owner: string, org: string, fates: Pc -> Fate)
    : map<string, string>
  {
    if fates(Reading).Works? && owner !in orgs && !fates(Creating).Lost? then orgs[owner := org] else orgs
  }

  /** The run learns that the org is its own, and goes on to seed it. */
  predicate LearnsItWon(orgs: map<string, string>, owner: string, fates: Pc -> Fate) {
    owner !in orgs && fates(Reading).Works? && fates(Creating).Works? && fates(Rereading).Works?
  }

  /** What run `p` leaves when nobody else runs, whatever way its statements go. */
  lemma ProvisionsAlone(s: State, p: nat, fates: Pc -> Fate)
    requires p < |s.procs| && s.procs[p].pc == Reading && s.procs[p].org !in s.book.balances
    ensures var s', Proc(owner, org, _) := Alone(s, p, fates, 6), s.procs[p];
            && s'.orgs == ProvisionedOrgs(s.orgs, owner, org, fates)
            && s'.book == if LearnsItWon(s.orgs, owner, fates) then SeededBook(s.book, org, fates) else s.book
  {
    WinsAlone(s, p, fates);
    if LearnsItWon(s.orgs, s.procs[p].owner, fates) {
      SeedsAlone(s, p, fates, 3);
    } else {
      FinishedAlone(s, p, fates, 3);
      FinishedAlone(s, p, fates, 4);
      FinishedAlone(s, p, fates, 5);
    }
  }

  /** A request by itself is such a run of the concurrent provisioning, in six steps. */
  lemma ProvisioningIsRun(s: State, p: nat, fates: Pc -> Fate) returns (steps: seq<Step>)
    requires p < |s.procs| && s.procs[p].pc == Reading && s.procs[p].org !in s.book.balances
    ensures |steps| == 6
    ensures var s', Proc(owner, org, _) := Run(s, steps), s.procs[p];
            && s'.orgs == ProvisionedOrgs(s.orgs, owner, org, fates)
            && s'.book == if LearnsItWon(s.orgs, owner, fates) then SeededBook(s.book, org, fates) else s.book
  {
    ProvisionsAlone(s, p, fates);
    steps := AloneIsRun(s, p, fates, 6);
  }

  lemma WinsAlone(s: State, p: nat, fates: Pc -> Fate)
    requires p < |s.procs| && s.procs[p].pc == Reading
    ensures var s', Proc(owner, org, _) := Alone(s, p, fates, 3), s.procs[p];
            && s'.orgs == ProvisionedOrgs(s.orgs, owner, org, fates) && s'.book == s.book
            && s'.procs[p] == Proc(owner, org, if LearnsItWon(s.orgs, owner, fates) then Opening else Finished)
  {
    assert Alone(s, p, fates, 0) == s;
    var read := Alone(s, p, fates, 1);
    assert read == AdvanceProc(s, p, fates(Reading));
    var created := Alone(s, p, fates, 2);
    assert created == AdvanceProc(read, p, fates(read.procs[p].pc));
    var reread := Alone(s, p, fates, 3);
    assert reread == AdvanceProc(created, p, fates(created.procs[p].pc));
  }

  class OrgRepo {
    var orgs: map<string, string>
    var balances: map<string, int>
    var ledger: seq<Entry>

    constructor ()
      ensures orgs == map[] && balances == map[] && ledger == []
    {
      orgs, balances, ledger := map[], map[], [];
    }

    /** The tables, with one request for `owner` about to start, who is to get the org id `minted`. */
    function Requested(owner: string, minted: string): State
      reads this
    {
      State(Book(balances, ledger), orgs, [Proc(owner, minted, Reading)], {}, [])
    }

    ghost predicate Holds(s: State)
      reads this
    {
      orgs == s.orgs && balances == s.book.balances && ledger == s.book.ledger
    }

    /**
     Returns the owner's org, provisioning it on the first call. `minted` is the id drawn for a new org, and
     `fates` says how each of the statements goes. The seeding statements never make the call fail.
     */
    method EnsureForUser(owner: string, minted: string, fates: Pc -> Fate) returns (org: Option<string>)
      requires minted !in balances
      modifies this
      ensures Holds(Alone(old(Requested(owner, minted)), 0, fates, 6))
      ensures org.Some? ==> owner in orgs && orgs[owner] == org.value
      ensures var found := owner in old(orgs) || (fates(Creating).Works? && fates(Rereading).Works?);
              org.Some? <==> fates(Reading).Works? && found
      ensures owner in old(orgs) ==> orgs == old(orgs) && balances == old(balances) && ledger == old(ledger)
      ensures owner !in old(orgs) ==> orgs == old(orgs) || orgs == old(orgs)[owner := minted]
    {
      ProvisionsAlone(Requested(owner, minted), 0, fates);
      if !fates(Reading).Works? {
        return None;
      }
      if owner in orgs {
        return Some(orgs[owner]);
      }
      if !fates(Creating).Lost? {
        orgs := orgs[owner := minted];
      }
      if !fates(Creating).Works? || !fates(Rereading).Works? {
        return None;
      }
      org := Some(orgs[owner]);
      if !fates(Opening).Lost? {
        balances := balances[minted := 0];
      }
      if !fates(Seeding).Lost? && minted in balances {
        balances := balances[minted := balances[minted] + SEED];
        if fates(Seeding).Works? && !fates(Booking).Lost? {
          ledger := ledger + [Entry(minted, SEED, "signup_grant")];
        }
      }
      assert old(balances)[minted := 0][minted := SEED] == old(balances)[minted := SEED];
    }
  }
}
