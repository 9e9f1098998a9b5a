/** The cashier and the administrator's correction, updating their tables in place. */
module CashierService {
  import opened Prelude
  import opened Users
  import opened Bank
  import opened DailyLimit
  import opened CashierModel
  import A = CashierAnswers

  class CashierService {
    var users: seq<User>
    var merchants: seq<Merchant>
    var accounts: seq<Account>
    var ledger: seq<Row>
    var journal: seq<seq<Entry>>
    var revenue: int
    var orders: seq<Order>
    var usage: map<Quota, Usage>

    constructor (users: seq<User>, merchants: seq<Merchant>, accounts: seq<Account>)
      requires |users| == |accounts|
      requires forall m :: 0 <= m < |merchants| ==> merchants[m].user < |users| && merchants[m].payRate <= 10000
      ensures Valid() && State() == Shop(users, merchants, Books(accounts, [], [], 0), [], map[])
    {
      this.users, this.merchants, this.accounts := users, merchants, accounts;
      ledger, journal, revenue, orders, usage := [], [], 0, [], map[];
    }

    function State(): Shop
      reads this
    {
      Shop(users, merchants, Books(accounts, ledger, journal, revenue), orders, usage)
    }

    ghost predicate Valid()
      reads this
    {
      WellFormed(State())
    }

    /** Finds or creates a limit row and increments it under the limit. */
    method TakeFrom(key: Quota, limit: int, amount: int) returns (ok: bool)
      modifies this`usage
      ensures var row := A.UsedOf(old(usage), key);
              && (ok <==> row.used + amount <= limit)
              && usage == old(usage)[key := if ok then Usage(row.used + amount, row.version + 1) else row]
      ensures ok == Take(old(usage), key, limit, amount).Some?
      ensures ok ==> usage == Take(old(usage), key, limit, amount).value
    {
      if key !in usage {
        usage := usage[key := Usage(0, 0)];
      }
      var row := usage[key];
      ok := row.used <= limit - amount;
      if ok {
        usage := usage[key := Usage(row.used + amount, row.version + 1)];
      }
    }

    /** Debits and credits must agree; platform accounts follow, user accounts do not. */
    method CreateEntries(entries: seq<Entry>) returns (ok: bool)
      modifies this`journal, this`revenue
      ensures ok == Balanced(entries)
      ensures ok ==> journal == old(journal) + [entries] && revenue == old(revenue) + RevenueDelta(entries)
      ensures !ok ==> journal == old(journal) && revenue == old(revenue)
    {
      var debit, credit, delta := Totals(entries);
      ok := debit == credit;
      if ok {
        journal := journal + [entries];
        revenue := revenue + delta;
      }
    }

    method Totals(entries: seq<Entry>) returns (debit: int, credit: int, delta: int)
      ensures debit == Sum(entries, DebitOf()) && credit == Sum(entries, CreditOf()) && delta == RevenueDelta(entries)
    {
      debit, credit, delta := 0, 0, 0;
      for i := 0 to |entries|
        invariant debit == Sum(entries[..i], DebitOf()) && credit == Sum(entries[..i], CreditOf())
        invariant delta == RevenueDelta(entries[..i])
      {
        assert entries[..i + 1][..i] == entries[..i];
        debit, credit := debit + entries[i].debit, credit + entries[i].credit;
        if entries[i].code == RevenueFee {
          delta := delta + entries[i].debit - entries[i].credit;
        }
      }
      assert entries[..|entries|] == entries;
    }

    /** The transaction: steps in the source's order, and the tables as they were whenever one of them throws. */
    method PayInTransaction(q: Quote, payerLimit: int, now: int) returns (r: Result<(), Error>)
      requires Valid() && GoodQuote(State(), q)
      modifies this
      ensures Valid()
      ensures match PayTx(old(State()), q, payerLimit, now)
              case Ok(s) => r == Ok(()) && State() == s
              case Err(e) => r == Err(e) && State() == old(State())
      ensures A.CommitErrors(old(State()), q.order, q.payer, q.dailyLimit, q.day, payerLimit, now, r)
      ensures r.Ok? ==> A.PaysWith(old(State()), q.order, q.payer, q.fee, q.day, now, State())
    {
      hide Sum, A.CommitErrors, A.PaysWith;
      A.CommitRefusals(State(), q, payerLimit, now);
      if PayTx(State(), q, payerLimit, now).Ok? {
        A.CommitPays(State(), q, payerLimit, now);
      }
      var order := orders[q.order];
      var payer, merchant := q.payer, q.merchantUser;
      if !users[payer].hasAccount || !users[merchant].hasAccount {
        return Err(AccountNotFound);
      }
      if !users[payer].accountActive {
        return Err(PayerAccountAbnormal);
      }
      if !users[merchant].accountActive {
        return Err(MerchantAccountAbnormal);
      }
      var usageBefore := usage;
      var ok := TakeFrom(Quota(order.merchant, MerchantPayment, Day(now)), q.dailyLimit, q.amount);
      if !ok {
        usage := usageBefore;
        return Err(MerchantLimit);
      }
      if q.amount > payerLimit {
        usage := usageBefore;
        return Err(PayerLimit);
      }
      ok := TakeFrom(Quota(payer, Cashier, q.day), payerLimit, q.amount);
      if !ok {
        usage := usageBefore;
        return Err(PayerLimit);
      }
      if !Payable(order, now) {
        usage := usageBefore;
        return Err(OrderStatusChanged);
      }
      orders := orders[q.order := order.(status := Paid, payer := Some(payer), paidAt := Some(now), fee := q.fee)];
      if accounts[payer].available < q.amount {
        orders := orders[q.order := order];
        usage := usageBefore;
        return Err(InsufficientBalance);
      }
      Transfer(payer, merchant, q.amount, q.fee, Payment(q.order));
      r := Ok(());
    }

    /** Both account updates, both ledger rows with balances read back, and the journal. */
    method Transfer(payer: nat, merchant: nat, amount: nat, fee: nat, ref: Reference)
      requires payer < |accounts| && merchant < |accounts| && accounts[payer].available >= amount
      modifies this`accounts, this`ledger, this`journal, this`revenue
      ensures Some(Books(accounts, ledger, journal, revenue)) ==
              Pay(old(Books(accounts, ledger, journal, revenue)), payer, merchant, amount, fee, ref)
    {
      Move(payer, -(amount as int));
      Move(merchant, amount - fee);
      var actual := amount - fee;
      ledger := ledger + [
        Row(payer, ref, amount, accounts[payer].available + amount, accounts[payer].available, Direction.Credit,
            Available),
        Row(merchant, ref, actual, accounts[merchant].available - actual, accounts[merchant].available,
            Direction.Debit, Available)];
      PaymentRevenue(payer, merchant, amount, fee);
      var _ := CreateEntries(PaymentEntries(payer, merchant, amount, fee));
    }

    /** Changes an account's available and total balance. */
    method Move(a: nat, amount: int)
      requires a < |accounts|
      modifies this`accounts
      ensures accounts == old(accounts)[a := old(accounts)[a].(available := old(accounts)[a].available + amount,
                                                               total := old(accounts)[a].total + amount)]
    {
      var x := accounts[a];
      accounts := accounts[a := x.(available := x.available + amount, total := x.total + amount)];
    }

    /** pay: a repeated call of the payer succeeds without effect; otherwise checks, then one transaction. */
    method PayOrder(o: nat, payer: nat, passwordOk: bool, riskBlocked: bool, payerLimit: int, now: int)
      returns (r: Result<(), Error>)
      requires Valid()
      modifies this
      ensures Valid()
      ensures match Check(old(State()), o, payer, passwordOk, riskBlocked, now)
              case AlreadyPaid => r == Ok(()) && State() == old(State())
              case Refused(e) => r == Err(e) && State() == old(State())
              case Proceed(q) =>
                GoodQuote(old(State()), q)
                && match PayTx(old(State()), q, payerLimit, now)
                   case Ok(s) => r == Ok(()) && State() == s
                   case Err(e) => r == Err(e) && State() == old(State())
      ensures A.Refuses(old(State()), o, payer, passwordOk, riskBlocked, payerLimit, now, r, State())
      ensures r.Ok? && !A.PaidBy(old(State()), o, payer) ==>
                payer < |old(users)| && o < |old(orders)| && A.Pays(old(State()), o, payer, now, State())
    {
      hide PayTx, A.Refuses, A.Pays;
      var checked := Check(State(), o, payer, passwordOk, riskBlocked, now);
      match checked {
        case AlreadyPaid => r := Ok(());
        case Refused(e) => r := Err(e);
        case Proceed(q) =>
          Fees.FeeWithinAmount(q.amount, merchants[orders[o].merchant].payRate);
          r := PayInTransaction(q, payerLimit, now);
      }
      A.PayAnswers(old(State()), o, payer, passwordOk, riskBlocked, payerLimit, now, r, State());
    }

    static lemma ClosingKeepsWellFormed(s: Shop, now: int)
      requires WellFormed(s)
      ensures WellFormed(s.(orders := CloseAll(s.orders, now)))
    {
    }

    /** Closes every unpaid order whose expiry time has passed, and reports how many. */
    method CloseExpiredOrders(now: int) returns (count: nat)
      requires Valid()
      modifies this`orders
      ensures Valid() && orders == CloseAll(old(orders), now)
      ensures A.ClosesOverdue(old(orders), orders, now)
      ensures count == |A.OverdueAmong(old(orders), |old(orders)|, now)|
    {
      hide WellFormed, CloseAll, Expired, Close, A.ClosesOverdue, A.Overdue, A.OverdueAmong;
      A.CloseAnswers(orders, now);
      assert A.OverdueAmong(orders, 0, now) == {} by { A.NoneOverdue(orders, now); }
      count := 0;
      var i := 0;
      while i < |orders|
        invariant 0 <= i <= |orders| == |old(orders)|
        invariant forall o :: 0 <= o < |orders| ==>
                    orders[o] == if o < i then Close(old(orders)[o], now) else old(orders)[o]
        invariant count == |A.OverdueAmong(old(orders), i, now)|
      {
        A.ExpiredIff(orders[i], now);
        A.OneMoreOverdue(old(orders), i, now);
        if Expired(orders[i], now) {
          orders := orders[i := orders[i].(status := Closed)];
          count := count + 1;
        }
        i := i + 1;
      }
      assert orders == CloseAll(old(orders), now);
      ClosingKeepsWellFormed(old(State()), now);
    }
  }
}
