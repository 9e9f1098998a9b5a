/**
 The daily limits over whole runs of the shop: what the two limit rows count, and that no day's payments exceed a limit.
*/
module CashierLimits {
  import opened Prelude
  import opened Bank
  import D = DailyLimit
  import opened CashierModel
  import opened CashierRuns
  import opened CashierAnswers

  // ---------------------------------------------------------------- the merchant's row

  ghost predicate PaidOn(order: Order, day: int) {
    order.status == Paid && order.paidAt.Some? && order.paidAt.value / 86400000 == day
  }

  /** The amount of an order of merchant `m` that was paid on that day. */
  ghost function SaleOf(m: nat, day: int): Order -> int {
    (order: Order) => if order.merchant == m && PaidOn(order, day) then order.amount else 0
  }

  ghost function IsSale(m: nat, day: int): Order -> int {
    (order: Order) => if order.merchant == m && PaidOn(order, day) then 1 else 0
  }

  /** What merchant `m` has taken on that day. */
  ghost function Sales(s: Shop, m: nat, day: int): int { Sum(s.orders, SaleOf(m, day)) }

  ghost predicate MerchantRow(s: Shop, m: nat, day: int) {
    UsedOf(s.usage, Quota(m, MerchantPayment, day)) == D.Usage(Sales(s, m, day), Sum(s.orders, IsSale(m, day)))
  }

  /** Every merchant's row of a day counts his orders paid on that day, and nothing else. */
  ghost predicate MerchantRowsCount(s: Shop) {
    forall m, day :: MerchantRow(s, m, day)
  }

  /** What a step's payment books, if it is one that goes through. */
  ghost predicate Commits(s: Shop, step: Step)
    requires WellFormed(s)
  {
    step.Commit? && Enabled(s, step) && PayTx(s, step.quote, step.payerLimit, step.at).Ok?
  }

  lemma {:induction false} SameSales(x: seq<Order>, y: seq<Order>, m: nat, day: int)
    requires |x| == |y| && forall o :: 0 <= o < |x| ==> y[o] == x[o] || (x[o].status != Paid && y[o].status != Paid)
    ensures Sum(y, SaleOf(m, day)) == Sum(x, SaleOf(m, day)) && Sum(y, IsSale(m, day)) == Sum(x, IsSale(m, day))
  {
    SumCong(x, y, SaleOf(m, day), SaleOf(m, day));
    SumCong(x, y, IsSale(m, day), IsSale(m, day));
  }

  /** What a committed payment changes in orders and limit rows. */
  lemma CommitChanges(s: Shop, q: Quote, payerLimit: int, at: int)
    requires WellFormed(s) && GoodQuote(s, q) && PayTx(s, q, payerLimit, at).Ok?
    ensures var s' := PayTx(s, q, payerLimit, at).value;
            var order := s.orders[q.order];
            var q1, q2 := Quota(order.merchant, MerchantPayment, at / 86400000), Quota(q.payer, Cashier, q.day);
            && order.status == Unpaid && order.amount == q.amount
            && s'.orders == s.orders[q.order := order.(status := Paid, payer := Some(q.payer), paidAt := Some(at),
                                                       fee := q.fee)]
            && s'.usage == s.usage[q1 := Counted(UsedOf(s.usage, q1), order.amount)]
                                  [q2 := Counted(UsedOf(s.usage, q2), order.amount)]
            && UsedOf(s.usage, q1).used + order.amount <= q.dailyLimit
            && UsedOf(s.usage, q2).used + order.amount <= payerLimit
  {
    hide Sum, PaymentEntries, RevenueDelta, Pay;
  }

  /** A step that commits no payment changes no limit row and no paid order. */
  lemma OtherChanges(s: Shop, step: Step)
    requires WellFormed(s) && !Commits(s, step)
    ensures var s' := Next(s, step);
            && s'.usage == s.usage && |s.orders| <= |s'.orders| <= |s.orders| + 1
            && (forall o :: 0 <= o < |s.orders| ==>
                  s'.orders[o] == s.orders[o] || (s.orders[o].status != Paid && s'.orders[o].status != Paid))
            && forall o :: |s.orders| <= o < |s'.orders| ==> s'.orders[o].status != Paid
  {
    hide Sum;
  }

  lemma OtherSales(s: Shop, step: Step, m: nat, day: int)
    requires WellFormed(s) && !Commits(s, step)
    ensures Sales(Next(s, step), m, day) == Sales(s, m, day)
    ensures Sum(Next(s, step).orders, IsSale(m, day)) == Sum(s.orders, IsSale(m, day))
  {
    hide Next, Commits;
    var x, y := s.orders, Next(s, step).orders;
    OtherChanges(s, step);
    SameSales(x, y[..|x|], m, day);
    if |y| == |x| + 1 {
      assert y == y[..|x|] + [y[|x|]];
      SumAppend(y[..|x|], y[|x|], SaleOf(m, day));
      SumAppend(y[..|x|], y[|x|], IsSale(m, day));
    } else {
      assert y[..|x|] == y;
    }
  }

  lemma CommitSales(s: Shop, q: Quote, payerLimit: int, at: int, m: nat, day: int)
    requires WellFormed(s) && GoodQuote(s, q) && PayTx(s, q, payerLimit, at).Ok?
    ensures var s' := PayTx(s, q, payerLimit, at).value;
            var here := s.orders[q.order].merchant == m && at / 86400000 == day;
            && Sales(s', m, day) == Sales(s, m, day) + (if here then q.amount else 0)
            && Sum(s'.orders, IsSale(m, day)) == Sum(s.orders, IsSale(m, day)) + (if here then 1 else 0)
  {
    hide PayTx, Sum;
    CommitChanges(s, q, payerLimit, at);
    var o := PayTx(s, q, payerLimit, at).value.orders[q.order];
    SumUpdate(s.orders, q.order, o, SaleOf(m, day));
    SumUpdate(s.orders, q.order, o, IsSale(m, day));
  }

  lemma NextCounts(s: Shop, step: Step)
    requires WellFormed(s) && MerchantRowsCount(s)
    ensures MerchantRowsCount(Next(s, step))
  {
    forall m, day ensures MerchantRow(Next(s, step), m, day) {
      assert MerchantRow(s, m, day);
      MerchantRowStep(s, step, m, day);
    }
  }

  lemma MerchantRowStep(s: Shop, step: Step, m: nat, day: int)
    requires WellFormed(s) && MerchantRow(s, m, day)
    ensures MerchantRow(Next(s, step), m, day)
  {
    if Commits(s, step) {
      CommitChanges(s, step.quote, step.payerLimit, step.at);
      CommitSales(s, step.quote, step.payerLimit, step.at, m, day);
    } else {
      OtherChanges(s, step);
      OtherSales(s, step, m, day);
    }
    hide Sum, PayTx, CloseAll;
  }

  /** In every run every merchant's row is the sum of his orders paid on its day, and its version their number. */
  lemma {:induction false} MerchantRowsCountAlways(s: Shop, steps: seq<Step>)
    requires Inv(s) && MerchantRowsCount(s)
    ensures MerchantRowsCount(Run(s, steps))
    decreases |steps|
  {
    if steps != [] {
      MerchantRowsCountAlways(s, steps[..|steps| - 1]);
      NextCounts(Run(s, steps[..|steps| - 1]), steps[|steps| - 1]);
    }
  }

  /** Rows that count nothing, for orders of which none is paid. */
  lemma StartCounts(s: Shop)
    requires s.usage == map[] && forall o :: 0 <= o < |s.orders| ==> s.orders[o].status != Paid
    ensures MerchantRowsCount(s)
  {
    forall m, day ensures MerchantRow(s, m, day) {
      NothingSold(s.orders, m, day);
    }
  }

  lemma {:induction false} NothingSold(orders: seq<Order>, m: nat, day: int)
    requires forall o :: 0 <= o < |orders| ==> orders[o].status != Paid
    ensures Sum(orders, SaleOf(m, day)) == 0 == Sum(orders, IsSale(m, day))
  {
    if orders != [] {
      NothingSold(orders[..|orders| - 1], m, day);
    }
  }

  /** Payments to merchant `m` carry at most this limit. */
  ghost predicate MerchantLimited(s: Shop, step: Step, m: nat, limit: int)
    requires WellFormed(s)
  {
    Commits(s, step) && s.orders[step.quote.order].merchant == m ==> step.quote.dailyLimit <= limit
  }

  ghost predicate MerchantLimitedRun(s: Shop, steps: seq<Step>, m: nat, limit: int)
    requires Inv(s)
  {
    forall k :: 0 <= k < |steps| ==> MerchantLimited(Run(s, steps[..k]), steps[k], m, limit)
  }

  /** With a fixed daily limit the orders of a merchant that are paid on one day never exceed it. */
  lemma {:induction false} MerchantLimitHolds(s: Shop, steps: seq<Step>, m: nat, limit: int, day: int)
    requires Inv(s) && MerchantRowsCount(s) && Sales(s, m, day) <= limit
    requires MerchantLimitedRun(s, steps, m, limit)
    ensures Sales(Run(s, steps), m, day) <= limit
    decreases |steps|
  {
    hide Next, Sum, PayTx, GoodQuote;
    if steps != [] {
      var n := |steps| - 1;
      var before := Run(s, steps[..n]);
      assert MerchantLimitedRun(s, steps[..n], m, limit) by { PrefixLimited(s, steps, m, limit); }
      MerchantLimitHolds(s, steps[..n], m, limit, day);
      MerchantRowsCountAlways(s, steps[..n]);
      assert MerchantLimited(before, steps[n], m, limit);
      MerchantLimitStep(before, steps[n], m, limit, day);
    }
  }

  lemma PrefixLimited(s: Shop, steps: seq<Step>, m: nat, limit: int)
    requires Inv(s) && steps != [] && MerchantLimitedRun(s, steps, m, limit)
    ensures MerchantLimitedRun(s, steps[..|steps| - 1], m, limit)
  {
    hide Run, MerchantLimited;
    forall k | 0 <= k < |steps| - 1 ensures MerchantLimited(Run(s, steps[..|steps| - 1][..k]), steps[k], m, limit) {
      assert steps[..|steps| - 1][..k] == steps[..k];
    }
  }

  lemma MerchantLimitStep(s: Shop, step: Step, m: nat, limit: int, day: int)
    requires WellFormed(s) && MerchantRowsCount(s) && Sales(s, m, day) <= limit && MerchantLimited(s, step, m, limit)
    ensures Sales(Next(s, step), m, day) <= limit
  {
    hide Sum;
    if Commits(s, step) {
      CommitChanges(s, step.quote, step.payerLimit, step.at);
      CommitSales(s, step.quote, step.payerLimit, step.at, m, day);
      assert MerchantRow(s, m, day);
    } else {
      OtherSales(s, step, m, day);
    }
  }

  // ---------------------------------------------------------------- the payer's row

  /** What a step books on the row of payer `p` for that day: the day on which the call was checked. */
  ghost function BookedOn(s: Shop, step: Step, p: nat, day: int): D.Usage
    requires WellFormed(s)
  {
    if Commits(s, step) && step.quote.payer == p && step.quote.day == day then D.Usage(step.quote.amount, 1)
    else D.Usage(0, 0)
  }

  function Plus(a: D.Usage, b: D.Usage): (r: D.Usage)
    ensures r.used == a.used + b.used && r.version == a.version + b.version
  {
    D.Usage(a.used + b.used, a.version + b.version)
  }

  ghost function BookedBy(s: Shop, steps: seq<Step>, p: nat, day: int): D.Usage
    requires Inv(s)
    decreases |steps|
  {
    if steps == [] then D.Usage(0, 0)
    else
      var front := steps[..|steps| - 1];
      Plus(BookedBy(s, front, p, day), BookedOn(Run(s, front), steps[|steps| - 1], p, day))
  }

  /** What a committed payment books on its payer's row, within the limit. */
  lemma CommitBooks(s: Shop, step: Step, p: nat, day: int)
    requires WellFormed(s) && Commits(s, step)
    ensures var key, u := Quota(p, Cashier, day), Next(s, step).usage;
            && UsedOf(u, key) == Plus(UsedOf(s.usage, key), BookedOn(s, step, p, day))
            && (step.quote.payer == p && step.quote.day == day ==> UsedOf(u, key).used <= step.payerLimit)
  {
    hide UsedOf, Counted, Plus, PayTx, Next;
    var q := step.quote;
    CommitIsNext(s, step);
    CommitChanges(s, q, step.payerLimit, step.at);
    var q1, q2 := Quota(s.orders[q.order].merchant, MerchantPayment, step.at / 86400000),
        Quota(q.payer, Cashier, q.day);
    TwoBooked(s.usage, q1, q2, Quota(p, Cashier, day), q.amount);
  }

  /** Booking an amount on two rows adds it to each, and to no other row. */
  lemma TwoBooked(usage: map<Quota, D.Usage>, q1: Quota, q2: Quota, key: Quota, amount: int)
    requires q1 != q2
    ensures var after := usage[q1 := Counted(UsedOf(usage, q1), amount)][q2 := Counted(UsedOf(usage, q2), amount)];
            UsedOf(after, key) ==
            Plus(UsedOf(usage, key), if key == q1 || key == q2 then D.Usage(amount, 1) else D.Usage(0, 0))
  {
    OneBooked(usage, q1, Counted(UsedOf(usage, q1), amount), key);
    OneBooked(usage[q1 := Counted(UsedOf(usage, q1), amount)], q2, Counted(UsedOf(usage, q2), amount), key);
    OneBooked(usage, q1, Counted(UsedOf(usage, q1), amount), q2);
    hide UsedOf;
  }

  lemma OneBooked(usage: map<Quota, D.Usage>, q: Quota, u: D.Usage, key: Quota)
    ensures UsedOf(usage[q := u], key) == if key == q then u else UsedOf(usage, key)
  {
  }

  lemma CommitIsNext(s: Shop, step: Step)
    requires WellFormed(s) && Commits(s, step)
    ensures GoodQuote(s, step.quote) && Next(s, step) == PayTx(s, step.quote, step.payerLimit, step.at).value
  {
    hide PayTx;
  }

  lemma OtherBooks(s: Shop, step: Step, p: nat, day: int)
    requires WellFormed(s) && !Commits(s, step)
    ensures Next(s, step).usage == s.usage && BookedOn(s, step, p, day) == D.Usage(0, 0)
  {
    OtherChanges(s, step);
  }

  lemma PayerRowStep(s: Shop, step: Step, p: nat, day: int)
    requires WellFormed(s)
    ensures var key := Quota(p, Cashier, day);
            UsedOf(Next(s, step).usage, key) == Plus(UsedOf(s.usage, key), BookedOn(s, step, p, day))
  {
    hide Next, Commits, BookedOn;
    if Commits(s, step) {
      CommitBooks(s, step, p, day);
    } else {
      OtherBooks(s, step, p, day);
    }
  }

  /** In every run a payer's row counts exactly the payments that were checked on its day and went through. */
  lemma {:induction false} PayerRowsCount(s: Shop, steps: seq<Step>, p: nat, day: int)
    requires Inv(s)
    ensures var key := Quota(p, Cashier, day);
            UsedOf(Run(s, steps).usage, key) == Plus(UsedOf(s.usage, key), BookedBy(s, steps, p, day))
    decreases |steps|
  {
    hide Next, BookedOn, UsedOf;
    if steps != [] {
      PayerRowsCount(s, steps[..|steps| - 1], p, day);
      PayerRowStep(Run(s, steps[..|steps| - 1]), steps[|steps| - 1], p, day);
    }
  }

  ghost predicate PayerLimitedRun(s: Shop, steps: seq<Step>, p: nat, limit: int) {
    forall k :: 0 <= k < |steps| && steps[k].Commit? && steps[k].quote.payer == p ==> steps[k].payerLimit <= limit
  }

  lemma PayerLimitStep(s: Shop, step: Step, p: nat, limit: int, day: int)
    requires WellFormed(s) && UsedOf(s.usage, Quota(p, Cashier, day)).used <= limit
    requires step.Commit? && step.quote.payer == p ==> step.payerLimit <= limit
    ensures UsedOf(Next(s, step).usage, Quota(p, Cashier, day)).used <= limit
  {
    hide Next, PayTx, GoodQuote, UsedOf;
    if Commits(s, step) {
      CommitBooks(s, step, p, day);
    } else {
      OtherBooks(s, step, p, day);
    }
  }

  /** With a fixed limit a payer's row never exceeds it. */
  lemma {:induction false} PayerLimitHolds(s: Shop, steps: seq<Step>, p: nat, limit: int, day: int)
    requires Inv(s) && UsedOf(s.usage, Quota(p, Cashier, day)).used <= limit && PayerLimitedRun(s, steps, p, limit)
    ensures UsedOf(Run(s, steps).usage, Quota(p, Cashier, day)).used <= limit
    decreases |steps|
  {
    hide Next, PayTx;
    if steps != [] {
      var n := |steps| - 1;
      var before := Run(s, steps[..n]);
      PayerLimitHolds(s, steps[..n], p, limit, day);
      PayerLimitStep(before, steps[n], p, limit, day);
    }
  }

  // ---------------------------------------------------------------- payments around midnight

  ghost function PurchaseOf(p: nat, day: int): Order -> int {
    (order: Order) => if order.payer == Some(p) && PaidOn(order, day) then order.amount else 0
  }

  /** What payer `p` has paid on that day, by the orders' own columns. */
  ghost function Purchases(s: Shop, p: nat, day: int): int { Sum(s.orders, PurchaseOf(p, day)) }

  /** A payment checked on one day and committed on another: it counts for the first, its order says the second. */
  ghost function Shift(s: Shop, step: Step, p: nat, day: int): int
    requires WellFormed(s)
  {
    if !Commits(s, step) || step.quote.payer != p then 0
    else (if step.quote.day == day then step.quote.amount else 0)
         - if step.at / 86400000 == day then step.quote.amount else 0
  }

  ghost function ShiftedBy(s: Shop, steps: seq<Step>, p: nat, day: int): int
    requires Inv(s)
    decreases |steps|
  {
    if steps == [] then 0
    else
      var front := steps[..|steps| - 1];
      ShiftedBy(s, front, p, day) + Shift(Run(s, front), steps[|steps| - 1], p, day)
  }

  lemma {:induction false} SamePurchases(x: seq<Order>, y: seq<Order>, p: nat, day: int)
    requires |x| == |y| && forall o :: 0 <= o < |x| ==> y[o] == x[o] || (x[o].status != Paid && y[o].status != Paid)
    ensures Sum(y, PurchaseOf(p, day)) == Sum(x, PurchaseOf(p, day))
  {
    SumCong(x, y, PurchaseOf(p, day), PurchaseOf(p, day));
  }

  lemma PurchasesStep(s: Shop, step: Step, p: nat, day: int)
    requires WellFormed(s)
    ensures Purchases(Next(s, step), p, day) ==
            Purchases(s, p, day) + BookedOn(s, step, p, day).used - Shift(s, step, p, day)
  {
    var x, y := s.orders, Next(s, step).orders;
    if Commits(s, step) {
      CommitChanges(s, step.quote, step.payerLimit, step.at);
      hide Sum, PayTx;
      SumUpdate(x, step.quote.order, y[step.quote.order], PurchaseOf(p, day));
    } else {
      OtherChanges(s, step);
      SamePurchases(x, y[..|x|], p, day);
      hide Sum, Next;
      if |y| == |x| + 1 {
        assert y == y[..|x|] + [y[|x|]];
        SumAppend(y[..|x|], y[|x|], PurchaseOf(p, day));
      } else {
        assert y[..|x|] == y;
      }
    }
  }

  /**
   A payer's row and his orders of a day differ by exactly the payments that were checked before midnight and
   committed after it.
  */
  lemma {:induction false} PayerRowsMissMidnight(s: Shop, steps: seq<Step>, p: nat, day: int)
    requires Inv(s) && UsedOf(s.usage, Quota(p, Cashier, day)).used == Purchases(s, p, day)
    ensures UsedOf(Run(s, steps).usage, Quota(p, Cashier, day)).used ==
            Purchases(Run(s, steps), p, day) + ShiftedBy(s, steps, p, day)
    decreases |steps|
  {
    hide Next, BookedOn, Shift, Sum;
    if steps != [] {
      var n := |steps| - 1;
      var before := Run(s, steps[..n]);
      PayerRowsMissMidnight(s, steps[..n], p, day);
      PayerRowStep(before, steps[n], p, day);
      PurchasesStep(before, steps[n], p, day);
    }
  }
}
