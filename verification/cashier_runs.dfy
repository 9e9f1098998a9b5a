/** What every interleaving of payments, sweeps and other money movements keeps. */
module CashierRuns {
  import opened Prelude
  import opened Users
  import opened Bank
  import opened CashierModel

  datatype Step =
    | Commit(quote: Quote, payerLimit: int, at: int)
    | Sweep(at: int)
    | NewOrder(order: Order, at: int)
    | Elsewhere(op: Op, at: int)
    | ChangeUser(id: nat, profile: User, at: int)
    | ChangeMerchant(id: nat, approved: bool, payRate: nat, dailyLimit: int, at: int)

  ghost predicate NotAPayment(op: Op) {
    && (op.OpFreeze? || op.OpRelease? || op.OpPayOut? || op.OpPay? ==> !op.ref.Payment?)
  }

  ghost predicate Enabled(s: Shop, step: Step) {
    match step
    case Commit(q, _, _) => GoodQuote(s, q)
    case Sweep(_) => true
    case NewOrder(o, _) => o.merchant < |s.merchants| && o.status == Unpaid && o.payer == None && o.fee == 0
    case Elsewhere(op, _) => Legal(|s.books.accounts|, op) && NotAPayment(op)
    case ChangeUser(id, _, _) => id < |s.users|
    case ChangeMerchant(id, _, rate, _, _) => id < |s.merchants| && rate <= 10000
  }

  ghost function Next(s: Shop, step: Step): Shop
    requires WellFormed(s)
  {
    if !Enabled(s, step) then s
    else
      match step
      case Commit(q, payerLimit, at) => var r := PayTx(s, q, payerLimit, at); if r.Ok? then r.value else s
      case Sweep(at) => s.(orders := CloseAll(s.orders, at))
      case NewOrder(o, _) => s.(orders := s.orders + [o])
      case Elsewhere(op, _) => s.(books := Do(s.books, op))
      case ChangeUser(id, u, _) => s.(users := s.users[id := u])
      case ChangeMerchant(id, approved, rate, limit, _) =>
        s.(merchants := s.merchants[id := Merchant(s.merchants[id].user, approved, rate, limit)])
  }

  // ---------------------------------------------------------------- the ledger of one order

  function Leg(o: nat, d: Direction): Row -> int {
    (r: Row) => if r.ref == Payment(o) && r.direction == d then 1 else 0
  }

  function Legs(s: Shop, o: nat, d: Direction): int {
    Sum(s.books.ledger, Leg(o, d))
  }

  ghost predicate Finished(order: Order) {
    order.status == Paid ==> order.payer.Some? && order.fee <= order.amount
                             && order.paidAt.Some? && order.expiredAt.Some?
                             && order.paidAt.value < order.expiredAt.value
  }

  /** A ledger row of a payment belongs to a paid order and carries one of its two amounts to the right account. */
  ghost predicate RowFits(s: Shop, r: Row)
    requires r.ref.Payment?
  {
    var o := r.ref.order;
    && o < |s.orders| && s.orders[o].merchant < |s.merchants| && s.orders[o].status == Paid && s.orders[o].payer.Some?
    && if r.direction == Direction.Credit then r.account == s.orders[o].payer.value && r.amount == s.orders[o].amount
       else r.account == s.merchants[s.orders[o].merchant].user && r.amount == s.orders[o].amount - s.orders[o].fee
  }

  ghost predicate RowsFit(s: Shop) {
    forall r :: r in s.books.ledger && r.ref.Payment? ==> RowFits(s, r)
  }

  /** A paid order has exactly one debit of its payer and one credit of its merchant; any other order has neither. */
  ghost predicate PaidOnce(s: Shop) {
    forall o :: 0 <= o < |s.orders| ==>
      && Finished(s.orders[o])
      && Legs(s, o, Direction.Credit) == (if s.orders[o].status == Paid then 1 else 0)
      && Legs(s, o, Direction.Debit) == (if s.orders[o].status == Paid then 1 else 0)
  }

  ghost predicate Inv(s: Shop) {
    && WellFormed(s)
    && s.books.Sound()
    && (forall g :: g in s.books.journal ==> Balanced(g))
    && PaidOnce(s)
    && RowsFit(s)
  }

  // ---------------------------------------------------------------- orders move once

  ghost predicate OrderMoves(x: Order, y: Order) {
    && y.amount == x.amount && y.merchant == x.merchant && y.expiredAt == x.expiredAt
    && (x.status == Unpaid || y == x)
    && (x.status == Unpaid && y.status == Unpaid ==> y == x)
  }

  ghost predicate Forward(s: Shop, s': Shop) {
    && |s.orders| <= |s'.orders|
    && |s.merchants| == |s'.merchants| && |s.users| == |s'.users|
    && (forall m :: 0 <= m < |s.merchants| ==> s'.merchants[m].user == s.merchants[m].user)
    && forall o :: 0 <= o < |s.orders| ==> OrderMoves(s.orders[o], s'.orders[o])
  }

  lemma NextForward(s: Shop, step: Step)
    requires WellFormed(s)
    ensures Forward(s, Next(s, step)) && WellFormed(Next(s, step))
  {
  }

  lemma ForwardTransitive(a: Shop, b: Shop, c: Shop)
    requires Forward(a, b) && Forward(b, c)
    ensures Forward(a, c)
  {
    forall o | 0 <= o < |a.orders| ensures OrderMoves(a.orders[o], c.orders[o]) {
      assert OrderMoves(a.orders[o], b.orders[o]) && OrderMoves(b.orders[o], c.orders[o]);
    }
  }

  // ---------------------------------------------------------------- money

  /** The money operation a step performs, if any. */
  ghost function OpOf(s: Shop, step: Step): Option<Op>
    requires WellFormed(s)
  {
    if !Enabled(s, step) then None
    else
      match step
      case Commit(q, payerLimit, at) =>
        if PayTx(s, q, payerLimit, at).Ok?
        then Some(OpPay(q.payer, q.merchantUser, q.amount, q.fee, Payment(q.order)))
        else None
      case Elsewhere(op, _) => Some(op)
      case _ => None
  }

  /** What a step brings in from outside. */
  ghost function Brought(s: Shop, step: Step): int
    requires WellFormed(s)
  {
    if OpOf(s, step).Some? then Injected(s.books, OpOf(s, step).value) else 0
  }

  lemma NextConserves(s: Shop, step: Step)
    requires WellFormed(s) && s.books.Sound() && forall g :: g in s.books.journal ==> Balanced(g)
    ensures var k := Next(s, step).books;
            k.Sound() && (forall g :: g in k.journal ==> Balanced(g)) && Money(k) == Money(s.books) + Brought(s, step)
  {
    if OpOf(s, step).Some? {
      DoConserves(s.books, OpOf(s, step).value);
    }
  }

  // ---------------------------------------------------------------- exactly one debit and one credit

  lemma OtherRows(k: Books, op: Op, o: nat, d: Direction)
    requires Legal(|k.accounts|, op)
    requires (op.OpFreeze? || op.OpRelease? || op.OpPayOut? || op.OpPay?) ==> op.ref != Payment(o)
    ensures Sum(Do(k, op).ledger, Leg(o, d)) == Sum(k.ledger, Leg(o, d))
  {
    hide Sum, PaymentEntries, RevenueDelta;
    var k' := Do(k, op);
    if |k'.ledger| == |k.ledger| + 1 {
      SumAppend(k.ledger, k'.ledger[|k.ledger|], Leg(o, d));
      assert k'.ledger == k.ledger + [k'.ledger[|k.ledger|]];
    } else if |k'.ledger| == |k.ledger| + 2 {
      TwoRows(k.ledger, k'.ledger[|k.ledger|], k'.ledger[|k.ledger| + 1], o, d);
      assert k'.ledger == k.ledger + [k'.ledger[|k.ledger|], k'.ledger[|k.ledger| + 1]];
    }
  }

  lemma TwoRows(rows: seq<Row>, x: Row, y: Row, o: nat, d: Direction)
    ensures Sum(rows + [x, y], Leg(o, d)) == Sum(rows, Leg(o, d)) + Leg(o, d)(x) + Leg(o, d)(y)
  {
    assert rows + [x, y] == (rows + [x]) + [y];
    SumAppend(rows, x, Leg(o, d));
    SumAppend(rows + [x], y, Leg(o, d));
  }

  lemma CommitPaysOnce(s: Shop, q: Quote, payerLimit: int, at: int)
    requires WellFormed(s) && PaidOnce(s) && GoodQuote(s, q) && PayTx(s, q, payerLimit, at).Ok?
    ensures PaidOnce(PayTx(s, q, payerLimit, at).value)
  {
    var s' := PayTx(s, q, payerLimit, at).value;
    var op := OpPay(q.payer, q.merchantUser, q.amount, q.fee, Payment(q.order));
    var n := |s.books.ledger|;
    forall o, d | 0 <= o < |s.orders|
      ensures Legs(s', o, d) == if s'.orders[o].status == Paid then 1 else 0
    {
      assert Legs(s, o, d) == if s.orders[o].status == Paid then 1 else 0 by {
        assert d == Direction.Credit || d == Direction.Debit;
      }
      if o == q.order {
        TwoRows(s.books.ledger, s'.books.ledger[n], s'.books.ledger[n + 1], o, d);
        assert s'.books.ledger == s.books.ledger + [s'.books.ledger[n], s'.books.ledger[n + 1]];
      } else {
        OtherRows(s.books, op, o, d);
      }
    }
    forall o | 0 <= o < |s'.orders| ensures Finished(s'.orders[o]) {
      assert Finished(s.orders[o]);
    }
  }

  /** A payment row never refers to an order that does not exist yet. */
  lemma {:induction false} NoLegs(rows: seq<Row>, o: nat, d: Direction)
    requires forall r :: r in rows ==> r.ref != Payment(o)
    ensures Sum(rows, Leg(o, d)) == 0
  {
    if rows != [] {
      NoLegs(rows[..|rows| - 1], o, d);
    }
  }

  lemma OtherStepsPayOnce(s: Shop, step: Step)
    requires WellFormed(s) && PaidOnce(s) && RowsFit(s) && !step.Commit?
    ensures PaidOnce(Next(s, step))
  {
    var s' := Next(s, step);
    NextForward(s, step);
    forall o | 0 <= o < |s'.orders|
      ensures Finished(s'.orders[o])
      ensures forall d :: Legs(s', o, d) == if s'.orders[o].status == Paid then 1 else 0
    {
      forall d ensures Legs(s', o, d) == if s'.orders[o].status == Paid then 1 else 0 {
        assert d == Direction.Credit || d == Direction.Debit;
        if step.Elsewhere? && Enabled(s, step) {
          OtherRows(s.books, step.op, o, d);
        }
        if o == |s.orders| {
          forall r | r in s.books.ledger ensures r.ref != Payment(o) {
            assert r.ref.Payment? ==> RowFits(s, r);
          }
          NoLegs(s.books.ledger, o, d);
        } else {
          assert Finished(s.orders[o]) && Legs(s, o, d) == if s.orders[o].status == Paid then 1 else 0;
          assert OrderMoves(s.orders[o], s'.orders[o]);
        }
      }
      if o < |s.orders| {
        assert Finished(s.orders[o]);
      }
    }
  }

  lemma OtherStepsRowsFit(s: Shop, step: Step)
    requires WellFormed(s) && RowsFit(s) && !step.Commit?
    ensures RowsFit(Next(s, step))
  {
    var s' := Next(s, step);
    NextForward(s, step);
    forall r | r in s'.books.ledger && r.ref.Payment? ensures RowFits(s', r) {
      assert r in s.books.ledger;
      assert RowFits(s, r);
      assert OrderMoves(s.orders[r.ref.order], s'.orders[r.ref.order]);
    }
  }

  lemma NextKeepsInv(s: Shop, step: Step)
    requires Inv(s)
    ensures Inv(Next(s, step))
  {
    NextForward(s, step);
    NextConserves(s, step);
    if step.Commit? {
      if Enabled(s, step) && PayTx(s, step.quote, step.payerLimit, step.at).Ok? {
        CommitPaysOnce(s, step.quote, step.payerLimit, step.at);
      }
    } else {
      OtherStepsPayOnce(s, step);
      OtherStepsRowsFit(s, step);
    }
  }

  // ---------------------------------------------------------------- runs

  ghost function Run(s: Shop, steps: seq<Step>): (r: Shop)
    requires Inv(s)
    ensures Inv(r)
    decreases |steps|
  {
    if steps == [] then s
    else
      var before := Run(s, steps[..|steps| - 1]);
      NextKeepsInv(before, steps[|steps| - 1]);
      Next(before, steps[|steps| - 1])
  }

  ghost function BroughtBy(s: Shop, steps: seq<Step>): int
    requires Inv(s)
    decreases |steps|
  {
    if steps == [] then 0
    else BroughtBy(s, steps[..|steps| - 1]) + Brought(Run(s, steps[..|steps| - 1]), steps[|steps| - 1])
  }

  /**
   Over every interleaving an order is decided at most once, a paid order has exactly one debit and one credit of the
   right amounts, journals balance, and user money minus the fee account changes only by what adjustments bring in.
  */
  lemma {:induction false} EveryRunPaysOnce(s: Shop, steps: seq<Step>)
    requires Inv(s)
    ensures var s' := Run(s, steps);
            && PaidOnce(s') && RowsFit(s')
            && Forward(s, s')
            && (forall g :: g in s'.books.journal ==> Balanced(g))
            && Money(s'.books) == Money(s.books) + BroughtBy(s, steps)
    decreases |steps|
  {
    if steps != [] {
      var before := Run(s, steps[..|steps| - 1]);
      EveryRunPaysOnce(s, steps[..|steps| - 1]);
      NextForward(before, steps[|steps| - 1]);
      ForwardTransitive(s, before, Run(s, steps));
      NextConserves(before, steps[|steps| - 1]);
    }
  }

  /** With a clock that does not run backwards, an unpaid order is never paid once its expiry time has come. */
  lemma {:induction false} ExpiredIsNeverPaid(s: Shop, steps: seq<Step>, o: nat, t: int)
    requires Inv(s) && o < |s.orders| && s.orders[o].status != Paid
    requires s.orders[o].expiredAt.Some? && s.orders[o].expiredAt.value <= t
    requires forall i :: 0 <= i < |steps| ==> t <= steps[i].at
    ensures o < |Run(s, steps).orders| && Run(s, steps).orders[o].status != Paid
    decreases |steps|
  {
    if steps != [] {
      var front := steps[..|steps| - 1];
      ExpiredIsNeverPaid(s, front, o, t);
      ExpiryKept(s, front, o);
      LateStep(Run(s, front), steps[|steps| - 1], o, t);
    }
  }

  lemma ExpiryKept(s: Shop, steps: seq<Step>, o: nat)
    requires Inv(s) && o < |s.orders|
    ensures o < |Run(s, steps).orders| && Run(s, steps).orders[o].expiredAt == s.orders[o].expiredAt
  {
    EveryRunPaysOnce(s, steps);
    assert OrderMoves(s.orders[o], Run(s, steps).orders[o]);
  }

  lemma LateStep(s: Shop, step: Step, o: nat, t: int)
    requires WellFormed(s) && o < |s.orders| && s.orders[o].status != Paid && t <= step.at
    requires s.orders[o].expiredAt.Some? && s.orders[o].expiredAt.value <= t
    ensures o < |Next(s, step).orders| && Next(s, step).orders[o].status != Paid
  {
  }

  /** Payments keep the ledger replayable, except those where the payer is the merchant and keeps part of the amount. */
  lemma PaymentReplaysIff(s: Shop, q: Quote, payerLimit: int, at: int, opening: seq<int>)
    requires Inv(s) && GoodQuote(s, q) && LedgerReplays(s.books, opening) && PayTx(s, q, payerLimit, at).Ok?
    ensures LedgerReplays(PayTx(s, q, payerLimit, at).value.books, opening) <==>
            q.payer != q.merchantUser || q.fee == q.amount
  {
    var op := OpPay(q.payer, q.merchantUser, q.amount, q.fee, Payment(q.order));
    assert PayTx(s, q, payerLimit, at).value.books == Do(s.books, op);
    if q.payer != q.merchantUser {
      DoReplays(s.books, op, opening);
    } else {
      SelfPaymentReplaysIff(s.books, q.payer, q.amount, q.fee, Payment(q.order), opening);
    }
  }

  /** What the checks hand to the transaction stays a good quote in every later state. */
  lemma CheckQuotes(s: Shop, o: nat, payer: nat, passwordOk: bool, riskBlocked: bool, now: int, later: Shop)
    requires WellFormed(s) && Forward(s, later)
    requires Check(s, o, payer, passwordOk, riskBlocked, now).Proceed?
    ensures GoodQuote(later, Check(s, o, payer, passwordOk, riskBlocked, now).quote)
  {
    var order := s.orders[o];
    Fees.FeeWithinAmount(order.amount, s.merchants[order.merchant].payRate);
    assert OrderMoves(order, later.orders[o]);
  }
}
