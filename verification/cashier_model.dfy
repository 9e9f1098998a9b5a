/** Merchant orders: creation, payment in one transaction, and the sweep that closes expired orders. */
module CashierModel {
  import opened Prelude
  import opened Users
  import opened Bank
  import opened Fees
  import opened DailyLimit

  // ---------------------------------------------------------------- tables

  datatype Merchant = Merchant(user: nat, approved: bool, payRate: nat, dailyLimit: int)

  datatype OrderStatus = Unpaid | Paid | Closed

  datatype Order = Order(
    merchant: nat, amount: nat, expiredAt: Option<int>, status: OrderStatus, payer: Option<nat>, paidAt: Option<int>,
    fee: nat)

  datatype LimitKind = MerchantPayment | Cashier

  datatype Quota = Quota(owner: nat, kind: LimitKind, day: int)

  datatype Shop = Shop(users: seq<User>, merchants: seq<Merchant>, books: Books, orders: seq<Order>,
                       usage: map<Quota, Usage>)

  datatype Error =
    | OrderNotFound | MerchantCannotReceive | UserNotFound | RealNameRequired | Forbidden | PasswordWrong
    | RiskBlocked | AccountNotFound | PayerAccountAbnormal | MerchantAccountAbnormal
    | MerchantLimit | PayerLimit | OrderStatusChanged | InsufficientBalance

  const DAY_MS: int := 86400000

  function Day(t: int): int { t / DAY_MS }

  ghost predicate WellFormed(s: Shop) {
    && |s.users| == |s.books.accounts|
    && (forall m :: 0 <= m < |s.merchants| ==>
        s.merchants[m].user < |s.users| && s.merchants[m].payRate <= RATE_DENOMINATOR)
    && (forall o :: 0 <= o < |s.orders| ==> s.orders[o].merchant < |s.merchants|)
  }

  // ---------------------------------------------------------------- before the transaction

  /** What a payment call keeps in memory between its checks and its transaction. */
  datatype Quote = Quote(order: nat, payer: nat, merchantUser: nat, amount: nat, fee: nat, dailyLimit: int, day: int)

  datatype Checked = AlreadyPaid | Proceed(quote: Quote) | Refused(error: Error)

  /** The checks before the transaction, in order. A repeated call of the payer returns the paid order. */
  function Check(s: Shop, o: nat, payer: nat, passwordOk: bool, riskBlocked: bool, now: int): Checked
    requires WellFormed(s)
  {
    if o >= |s.orders| then Refused(OrderNotFound)
    else
      var order := s.orders[o];
      var merchant := s.merchants[order.merchant];
      if order.status == Paid && order.payer == Some(payer) then AlreadyPaid
      else if !merchant.approved then Refused(MerchantCannotReceive)
      else if payer >= |s.users| then Refused(UserNotFound)
      else if !s.users[payer].verified then Refused(RealNameRequired)
      else if s.users[payer].status == FrozenUser || s.users[payer].status == ExpenseRestricted then Refused(Forbidden)
      else if !passwordOk then Refused(PasswordWrong)
      else if riskBlocked then Refused(RiskBlocked)
      else Proceed(Quote(o, payer, merchant.user, order.amount, Fee(order.amount, merchant.payRate),
                         merchant.dailyLimit, Day(now)))
  }

  /** A quote that some earlier state of the tables gave: the order's fixed columns, and a fee at some allowed rate. */
  ghost predicate GoodQuote(s: Shop, q: Quote) {
    && q.order < |s.orders| && s.orders[q.order].merchant < |s.merchants|
    && q.payer < |s.users|
    && q.merchantUser == s.merchants[s.orders[q.order].merchant].user < |s.users|
    && q.amount == s.orders[q.order].amount
    && q.fee <= q.amount
  }

  // ---------------------------------------------------------------- the transaction

  /** The limit row after taking `amount` from it, if the limit leaves room. */
  function Take(usage: map<Quota, Usage>, key: Quota, limit: int, amount: int): Option<map<Quota, Usage>> {
    var row := if key in usage then usage[key] else Usage(0, 0);
    if row.used <= limit - amount then Some(usage[key := Usage(row.used + amount, row.version + 1)]) else None
  }

  predicate Payable(order: Order, now: int) {
    order.status == Unpaid && order.expiredAt.Some? && order.expiredAt.value > now
  }

  /** The payment transaction; an error leaves every table as it was. */
  function PayTx(s: Shop, q: Quote, payerLimit: int, now: int): Result<Shop, Error>
    requires WellFormed(s) && GoodQuote(s, q)
  {
    var order := s.orders[q.order];
    if !s.users[q.payer].hasAccount || !s.users[q.merchantUser].hasAccount then Err(AccountNotFound)
    else if !s.users[q.payer].accountActive then Err(PayerAccountAbnormal)
    else if !s.users[q.merchantUser].accountActive then Err(MerchantAccountAbnormal)
    else
      var usage1 := Take(s.usage, Quota(order.merchant, MerchantPayment, Day(now)), q.dailyLimit, q.amount);
      if usage1.None? then Err(MerchantLimit)
      else
        var usage2 := Take(usage1.value, Quota(q.payer, Cashier, q.day), payerLimit, q.amount);
        if q.amount > payerLimit || usage2.None? then Err(PayerLimit)
        else if !Payable(order, now) then Err(OrderStatusChanged)
        else
          var books := Pay(s.books, q.payer, q.merchantUser, q.amount, q.fee, Payment(q.order));
          if books.None? then Err(InsufficientBalance)
          else
            Ok(s.(usage := usage2.value, books := books.value,
                  orders := s.orders[q.order := order.(status := Paid, payer := Some(q.payer), paidAt := Some(now),
                                                       fee := q.fee)]))
  }

  // ---------------------------------------------------------------- the sweep

  predicate Expired(order: Order, now: int) {
    order.status == Unpaid && order.expiredAt.Some? && order.expiredAt.value < now
  }

  function Close(order: Order, now: int): Order {
    if Expired(order, now) then order.(status := Closed) else order
  }

  function CloseAll(orders: seq<Order>, now: int): (r: seq<Order>)
    ensures |r| == |orders|
    ensures forall o :: 0 <= o < |orders| ==> r[o] == Close(orders[o], now)
  {
    if orders == [] then [] else CloseAll(orders[..|orders| - 1], now) + [Close(orders[|orders| - 1], now)]
  }
}
