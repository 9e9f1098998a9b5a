/**
 What the callers of the cashier see, said over the columns of the tables: every refusal with its condition, and what
 a payment changes.
*/
module CashierAnswers {
  import opened Prelude
  import opened Users
  import opened Bank
  import opened DailyLimit
  import opened CashierModel

  /** What a limit row has counted so far; a missing row has counted nothing. */
  ghost function UsedOf(usage: map<Quota, Usage>, key: Quota): Usage {
    if key in usage then usage[key] else Usage(0, 0)
  }

  ghost function MerchantQuota(s: Shop, o: nat, now: int): Quota
    requires o < |s.orders|
  {
    Quota(s.orders[o].merchant, MerchantPayment, now / 86400000)
  }

  // ---------------------------------------------------------------- refusals

  ghost predicate PaidBy(s: Shop, o: nat, payer: nat) {
    o < |s.orders| && s.orders[o].status == Paid && s.orders[o].payer == Some(payer)
  }

  /** The refusals for who pays, once the merchant may receive. */
  ghost predicate PayerErrors(users: seq<User>, payer: nat, passwordOk: bool, riskBlocked: bool, r: Result<(), Error>) {
    && (r == Err(UserNotFound) <==> payer >= |users|)
    && (payer < |users| ==>
          var u := users[payer];
          var banned := u.status == FrozenUser || u.status == ExpenseRestricted;
          && (r == Err(RealNameRequired) <==> !u.verified)
          && (r == Err(Forbidden) <==> u.verified && banned)
          && (r == Err(PasswordWrong) <==> u.verified && !banned && !passwordOk)
          && (r == Err(RiskBlocked) <==> u.verified && !banned && passwordOk && riskBlocked))
  }

  ghost predicate MayPay(users: seq<User>, payer: nat, passwordOk: bool, riskBlocked: bool) {
    && payer < |users| && users[payer].verified && passwordOk && !riskBlocked
    && (users[payer].status == Normal || users[payer].status == IncomeRestricted)
  }

  /**
   The refusals of the payment's transaction, for a payer who may pay. The merchant's daily limit and the day on which
   the payer's limit counts are those of the checks before it.
  */
  ghost predicate CommitErrors(s: Shop, o: nat, payer: nat, dailyLimit: int, day: int, payerLimit: int, now: int,
                               r: Result<(), Error>)
    requires WellFormed(s) && o < |s.orders| && payer < |s.users|
  {
    var order := s.orders[o];
    var m := s.merchants[order.merchant];
    var u, v := s.users[payer], s.users[m.user];
    var active := u.hasAccount && v.hasAccount && u.accountActive && v.accountActive;
    var overMerchant := UsedOf(s.usage, MerchantQuota(s, o, now)).used + order.amount > dailyLimit;
    var overPayer := order.amount > payerLimit
                     || UsedOf(s.usage, Quota(payer, Cashier, day)).used + order.amount > payerLimit;
    var open := order.status == Unpaid && order.expiredAt.Some? && now < order.expiredAt.value;
    && (r == Err(AccountNotFound) <==> !u.hasAccount || !v.hasAccount)
    && (r == Err(PayerAccountAbnormal) <==> u.hasAccount && v.hasAccount && !u.accountActive)
    && (r == Err(MerchantAccountAbnormal) <==> u.hasAccount && v.hasAccount && u.accountActive && !v.accountActive)
    && (r == Err(MerchantLimit) <==> active && overMerchant)
    && (r == Err(PayerLimit) <==> active && !overMerchant && overPayer)
    && (r == Err(OrderStatusChanged) <==> active && !overMerchant && !overPayer && !open)
    && (r == Err(InsufficientBalance) <==>
          active && !overMerchant && !overPayer && open && s.books.accounts[payer].available < order.amount)
  }

  ghost predicate CheckErrors(s: Shop, o: nat, payer: nat, passwordOk: bool, riskBlocked: bool, r: Result<(), Error>)
    requires WellFormed(s)
  {
    && (r == Err(OrderNotFound) <==> o >= |s.orders|)
    && (PaidBy(s, o, payer) ==> r == Ok(()))
    && (o < |s.orders| && !PaidBy(s, o, payer) ==>
          && (r == Err(MerchantCannotReceive) <==> !s.merchants[s.orders[o].merchant].approved)
          && (s.merchants[s.orders[o].merchant].approved ==>
                PayerErrors(s.users, payer, passwordOk, riskBlocked, r)))
  }

  /** All that is asked before the transaction. */
  ghost predicate Passes(s: Shop, o: nat, payer: nat, passwordOk: bool, riskBlocked: bool)
    requires WellFormed(s)
  {
    && o < |s.orders| && !PaidBy(s, o, payer) && s.merchants[s.orders[o].merchant].approved
    && MayPay(s.users, payer, passwordOk, riskBlocked)
  }

  /** Every refusal of a payment has the condition stated here, and changes nothing. */
  ghost predicate Refuses(s: Shop, o: nat, payer: nat, passwordOk: bool, riskBlocked: bool, payerLimit: int, now: int,
                          r: Result<(), Error>, s': Shop)
    requires WellFormed(s)
  {
    && CheckErrors(s, o, payer, passwordOk, riskBlocked, r)
    && (Passes(s, o, payer, passwordOk, riskBlocked) ==>
          CommitErrors(s, o, payer, s.merchants[s.orders[o].merchant].dailyLimit, now / 86400000, payerLimit, now, r))
    && (r.Ok? ==> PaidBy(s, o, payer) || Passes(s, o, payer, passwordOk, riskBlocked))
    && (r.Err? || PaidBy(s, o, payer) ==> s' == s)
  }

  // ---------------------------------------------------------------- a payment that goes through

  /** The rate in ten-thousandths of the amount, rounded to the nearest fen, upwards at a tie. */
  ghost predicate NearestFee(amount: int, rate: int, fee: int) {
    -5000 < 10000 * fee - amount * rate <= 5000
  }

  /** The payer's account falls by the amount, the merchant's rises by the rest; they may be the same. */
  ghost predicate MoneyMoved(was: seq<Account>, now: seq<Account>, payer: nat, merchant: nat, amount: int, fee: int) {
    && |now| == |was|
    && forall a :: 0 <= a < |was| ==>
         var change := (if a == merchant then amount - fee else 0) - (if a == payer then amount else 0);
         now[a] == Account(was[a].available + change, was[a].frozen, was[a].total + change)
  }

  /** What the payment adds to ledger and journal, the fee account's balance included. */
  ghost predicate Booked(k: Books, k': Books, ref: Reference, payer: nat, merchant: nat, amount: int, fee: int)
    requires payer < |k'.accounts| && merchant < |k'.accounts|
  {
    var x, y := k'.accounts[payer].available, k'.accounts[merchant].available;
    && k'.ledger == k.ledger + [
         Row(payer, ref, amount, x + amount, x, Direction.Credit, Available),
         Row(merchant, ref, amount - fee, y - (amount - fee), y, Direction.Debit, Available)]
    && k'.journal == k.journal + [
         [Entry(UserAccount(payer), amount, 0), Entry(UserAccount(merchant), 0, amount - fee),
          Entry(RevenueFee, 0, fee)]]
    && k'.revenue == k.revenue - fee
  }

  /** A payment with a given fee, counted for the payer on a given day. */
  ghost predicate PaysWith(s: Shop, o: nat, payer: nat, fee: nat, day: int, now: int, s': Shop)
    requires WellFormed(s) && o < |s.orders| && payer < |s.users|
  {
    var order := s.orders[o];
    var merchant := s.merchants[order.merchant].user;
    var q1, q2 := MerchantQuota(s, o, now), Quota(payer, Cashier, day);
    && s'.users == s.users && s'.merchants == s.merchants
    && s'.orders == s.orders[o := order.(status := Paid, payer := Some(payer), paidAt := Some(now), fee := fee)]
    && MoneyMoved(s.books.accounts, s'.books.accounts, payer, merchant, order.amount, fee)
    && Booked(s.books, s'.books, Payment(o), payer, merchant, order.amount, fee)
    && s'.usage == s.usage[q1 := Counted(UsedOf(s.usage, q1), order.amount)]
                          [q2 := Counted(UsedOf(s.usage, q2), order.amount)]
  }

  ghost predicate Pays(s: Shop, o: nat, payer: nat, now: int, s': Shop)
    requires WellFormed(s) && o < |s.orders| && payer < |s.users|
  {
    && |s'.orders| == |s.orders|
    && var fee := s'.orders[o].fee;
       && NearestFee(s.orders[o].amount, s.merchants[s.orders[o].merchant].payRate, fee)
       && PaysWith(s, o, payer, fee, now / 86400000, now, s')
  }

  /** A limit row after one more payment. */
  ghost function Counted(u: Usage, amount: int): Usage { Usage(u.used + amount, u.version + 1) }

  // ---------------------------------------------------------------- expiry

  /** Unpaid, and its expiry time has passed. */
  ghost predicate Overdue(order: Order, now: int) {
    order.status == Unpaid && order.expiredAt.Some? && order.expiredAt.value < now
  }

  /** Overdue orders are closed, and every other one, those that could still be paid among them, is left as it was. */
  ghost predicate ClosesOverdue(was: seq<Order>, orders: seq<Order>, now: int) {
    && |orders| == |was|
    && (forall o :: 0 <= o < |was| ==> orders[o] == if Overdue(was[o], now) then was[o].(status := Closed) else was[o])
    && forall o :: 0 <= o < |was| && Payable(was[o], now) ==> orders[o] == was[o]
  }

  /** Which of the first `n` orders are overdue. */
  ghost function OverdueAmong(was: seq<Order>, n: nat, now: int): set<int>
    requires n <= |was|
  {
    set o | 0 <= o < n && Overdue(was[o], now)
  }

  lemma NoneOverdue(was: seq<Order>, now: int)
    ensures OverdueAmong(was, 0, now) == {}
  {
  }

  lemma OneMoreOverdue(was: seq<Order>, n: nat, now: int)
    requires n < |was|
    ensures |OverdueAmong(was, n + 1, now)| == |OverdueAmong(was, n, now)| + if Overdue(was[n], now) then 1 else 0
  {
    hide Overdue;
    var before := OverdueAmong(was, n, now);
    assert OverdueAmong(was, n + 1, now) == if Overdue(was[n], now) then before + {n as int} else before;
  }

  lemma ExpiredIff(order: Order, now: int)
    ensures Expired(order, now) <==> Overdue(order, now)
    ensures Expired(order, now) ==> Close(order, now) == order.(status := Closed)
    ensures !Expired(order, now) ==> Close(order, now) == order
  {
  }

  lemma CloseAnswers(was: seq<Order>, now: int)
    ensures ClosesOverdue(was, CloseAll(was, now), now)
  {
  }

  // ---------------------------------------------------------------- why

  lemma CommitRefusals(s: Shop, q: Quote, payerLimit: int, now: int)
    requires WellFormed(s) && GoodQuote(s, q)
    ensures var r := PayTx(s, q, payerLimit, now);
            && CommitErrors(s, q.order, q.payer, q.dailyLimit, q.day, payerLimit, now,
                            if r.Ok? then Ok(()) else Err(r.error))
            && (r.Err? ==> r.error in {AccountNotFound, PayerAccountAbnormal, MerchantAccountAbnormal, MerchantLimit,
                                       PayerLimit, OrderStatusChanged, InsufficientBalance})
  {
    hide Sum, PaymentEntries, RevenueDelta;
  }

  lemma CommitPays(s: Shop, q: Quote, payerLimit: int, now: int)
    requires WellFormed(s) && GoodQuote(s, q)
    requires PayTx(s, q, payerLimit, now).Ok?
    ensures PaysWith(s, q.order, q.payer, q.fee, q.day, now, PayTx(s, q, payerLimit, now).value)
  {
    PaymentRevenue(q.payer, q.merchantUser, q.amount, q.fee);
    hide Sum, RevenueDelta, Balanced;
  }

  lemma CheckConditions(s: Shop, o: nat, payer: nat, passwordOk: bool, riskBlocked: bool, now: int)
    requires WellFormed(s)
    ensures var c := Check(s, o, payer, passwordOk, riskBlocked, now);
            && (c.AlreadyPaid? <==> PaidBy(s, o, payer))
            && (c.Proceed? <==> Passes(s, o, payer, passwordOk, riskBlocked))
            && (c.Refused? ==> CheckErrors(s, o, payer, passwordOk, riskBlocked, Err(c.error)))
            && (c.Proceed? ==>
                  var q := c.quote;
                  && q.order == o && q.payer == payer && q.day == now / 86400000 && GoodQuote(s, q)
                  && q.dailyLimit == s.merchants[s.orders[o].merchant].dailyLimit
                  && NearestFee(q.amount, s.merchants[s.orders[o].merchant].payRate, q.fee))
  {
    if o < |s.orders| {
      var rate := s.merchants[s.orders[o].merchant].payRate;
      Fees.FeeIsNearest(s.orders[o].amount, rate, Fees.Fee(s.orders[o].amount, rate));
      Fees.FeeWithinAmount(s.orders[o].amount, rate);
      hide Fees.Fee;
    }
  }

  lemma OrderPaid(s: Shop, q: Quote, now: int, s': Shop)
    requires WellFormed(s) && GoodQuote(s, q) && PaysWith(s, q.order, q.payer, q.fee, q.day, now, s')
    ensures |s'.orders| == |s.orders| && s'.orders[q.order].fee == q.fee
  {
  }

  /** Every answer of a payment call, as its checks and its transaction give it. */
  lemma PayAnswers(s: Shop, o: nat, payer: nat, passwordOk: bool, riskBlocked: bool, payerLimit: int, now: int,
                   r: Result<(), Error>, s': Shop)
    requires WellFormed(s)
    requires match Check(s, o, payer, passwordOk, riskBlocked, now)
             case AlreadyPaid => r == Ok(()) && s' == s
             case Refused(e) => r == Err(e) && s' == s
             case Proceed(q) =>
               GoodQuote(s, q)
               && match PayTx(s, q, payerLimit, now)
                  case Ok(after) => r == Ok(()) && s' == after
                  case Err(e) => r == Err(e) && s' == s
    ensures Refuses(s, o, payer, passwordOk, riskBlocked, payerLimit, now, r, s')
    ensures r.Ok? && !PaidBy(s, o, payer) ==> payer < |s.users| && o < |s.orders| && Pays(s, o, payer, now, s')
  {
    CheckConditions(s, o, payer, passwordOk, riskBlocked, now);
    var c := Check(s, o, payer, passwordOk, riskBlocked, now);
    hide Check, PayTx, PaysWith, CommitErrors, GoodQuote, NearestFee;
    if c.Proceed? {
      CommitRefusals(s, c.quote, payerLimit, now);
      if PayTx(s, c.quote, payerLimit, now).Ok? {
        CommitPays(s, c.quote, payerLimit, now);
        OrderPaid(s, c.quote, now, s');
      }
    }
  }
}
