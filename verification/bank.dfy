/**
 The rows that every money-moving service writes: accounts, account ledger rows, journal
 entries and the platform's fee account. Each function is the money part of one database
 transaction; `None` is a thrown exception, which rolls the transaction back.
*/
module Bank {
  import opened Prelude

  datatype Account = Account(available: int, frozen: int, total: int) {
    predicate Sound() {
      available >= 0 && frozen >= 0 && total == available + frozen
    }
  }

  /** The source writes DEBIT for money coming in and CREDIT for money going out. */
  datatype Direction = Debit | Credit

  /** Which balance a ledger row's before and after columns were read from. */
  datatype Side = Available | Frozen

  datatype Reference =
    | BatchFreeze(batch: nat)
    | BatchItem(batch: nat, item: nat)
    | BatchRefund(batch: nat)
    | BatchCancel(batch: nat)
    | Payment(order: nat)
    | Adjustment

  datatype Row = Row(
    account: nat, ref: Reference, amount: int, before: int, after: int, direction: Direction, side: Side)

  datatype Code = UserAccount(user: nat) | RevenueFee

  datatype Entry = Entry(code: Code, debit: int, credit: int)

  datatype Books = Books(accounts: seq<Account>, ledger: seq<Row>, journal: seq<seq<Entry>>, revenue: int) {
    ghost predicate Sound() {
      forall a :: 0 <= a < |accounts| ==> accounts[a].Sound()
    }
  }

  /** available -> frozen, guarded by `availableBalance >= amount`. */
  function Freeze(k: Books, a: nat, amount: int, ref: Reference): Option<Books>
    requires a < |k.accounts|
  {
    var was := k.accounts[a];
    if was.available < amount then None
    else
      var now := was.(available := was.available - amount, frozen := was.frozen + amount);
      Some(k.(accounts := k.accounts[a := now],
              ledger := k.ledger + [Row(a, ref, amount, now.available + amount, now.available, Credit, Available)]))
  }

  predicate CanRelease(k: Books, a: nat, amount: int)
    requires a < |k.accounts|
  {
    amount > 0 && k.accounts[a].frozen >= amount
  }

  /** The account part of a refund: frozen -> available. */
  function Unfreeze(accounts: seq<Account>, a: nat, amount: int): (r: seq<Account>)
    requires a < |accounts|
    ensures |r| == |accounts|
  {
    var was := accounts[a];
    accounts[a := was.(available := was.available + amount, frozen := was.frozen - amount)]
  }

  /** The ledger row of a refund, read back from the account after the update. */
  function RefundRow(accounts: seq<Account>, a: nat, amount: int, ref: Reference): Row
    requires a < |accounts|
  {
    Row(a, ref, amount, accounts[a].available - amount, accounts[a].available, Debit, Available)
  }

  /** frozen -> available with its ledger row; nothing happens when the guard fails. */
  function Release(k: Books, a: nat, amount: int, ref: Reference): Books
    requires a < |k.accounts|
  {
    if !CanRelease(k, a, amount) then k
    else
      var accounts := Unfreeze(k.accounts, a, amount);
      k.(accounts := accounts, ledger := k.ledger + [RefundRow(accounts, a, amount, ref)])
  }

  /** The sender's frozen money becomes the receiver's available money. */
  function PayOut(k: Books, sender: nat, receiver: nat, amount: int, ref: Reference): Option<Books>
    requires sender < |k.accounts| && receiver < |k.accounts|
  {
    var s := k.accounts[sender];
    if s.frozen < amount then None
    else
      var accounts1 := k.accounts[sender := s.(frozen := s.frozen - amount, total := s.total - amount)];
      var r := accounts1[receiver];
      var accounts2 := accounts1[receiver := r.(available := r.available + amount, total := r.total + amount)];
      Some(k.(accounts := accounts2,
              ledger := k.ledger + [
                Row(sender, ref, amount, accounts2[sender].frozen + amount, accounts2[sender].frozen, Credit, Frozen),
                Row(receiver, ref, amount, accounts2[receiver].available - amount, accounts2[receiver].available,
                    Debit, Available)]))
  }

  /** A merchant payment: the payer loses `amount`, the merchant gains `amount - fee`. */
  function Pay(k: Books, payer: nat, merchant: nat, amount: int, fee: int, ref: Reference): Option<Books>
    requires payer < |k.accounts| && merchant < |k.accounts|
  {
    var p := k.accounts[payer];
    if p.available < amount then None
    else
      var actual := amount - fee;
      var accounts1 := k.accounts[payer := p.(available := p.available - amount, total := p.total - amount)];
      var m := accounts1[merchant];
      var accounts2 := accounts1[merchant := m.(available := m.available + actual, total := m.total + actual)];
      Some(Books(
             accounts2,
             k.ledger + [
               Row(payer, ref, amount, accounts2[payer].available + amount, accounts2[payer].available, Credit,
                   Available),
               Row(merchant, ref, actual, accounts2[merchant].available - actual, accounts2[merchant].available,
                   Debit, Available)],
             k.journal + [PaymentEntries(payer, merchant, amount, fee)],
             k.revenue + RevenueDelta(PaymentEntries(payer, merchant, amount, fee))))
  }

  function PaymentEntries(payer: nat, merchant: nat, amount: int, fee: int): seq<Entry> {
    [Entry(UserAccount(payer), amount, 0), Entry(UserAccount(merchant), 0, amount - fee), Entry(RevenueFee, 0, fee)]
  }

  function DebitOf(): Entry -> int { (e: Entry) => e.debit }

  function CreditOf(): Entry -> int { (e: Entry) => e.credit }

  predicate Balanced(entries: seq<Entry>) {
    Sum(entries, DebitOf()) == Sum(entries, CreditOf())
  }

  function FeeEntryNet(): Entry -> int {
    (e: Entry) => if e.code == RevenueFee then e.debit - e.credit else 0
  }

  /** Debit adds to a platform account and credit subtracts, so fee income is recorded as a negative balance. */
  function RevenueDelta(entries: seq<Entry>): int {
    Sum(entries, FeeEntryNet())
  }

  /** An administrator's correction; only a deduction is guarded. */
  function Adjust(k: Books, a: nat, amount: int, credit: bool): Option<Books>
    requires a < |k.accounts|
  {
    var was := k.accounts[a];
    if credit then
      var now := was.(available := was.available + amount, total := was.total + amount);
      Some(k.(accounts := k.accounts[a := now],
              ledger := k.ledger + [Row(a, Adjustment, amount, now.available - amount, now.available, Debit,
                                        Available)]))
    else if was.available < amount then None
    else
      var now := was.(available := was.available - amount, total := was.total - amount);
      Some(k.(accounts := k.accounts[a := now],
              ledger := k.ledger + [Row(a, Adjustment, amount, now.available + amount, now.available, Credit,
                                        Available)]))
  }

  // ---------------------------------------------------------------- runs

  datatype Op =
    | OpFreeze(account: nat, amount: nat, ref: Reference)
    | OpRelease(account: nat, amount: nat, ref: Reference)
    | OpPayOut(sender: nat, receiver: nat, amount: nat, ref: Reference)
    | OpPay(payer: nat, merchant: nat, amount: nat, fee: nat, ref: Reference)
    | OpAdjust(account: nat, amount: nat, credit: bool)

  predicate Legal(n: nat, op: Op) {
    match op
    case OpFreeze(a, _, _) => a < n
    case OpRelease(a, _, _) => a < n
    case OpPayOut(s, r, _, _) => s < n && r < n
    case OpPay(p, m, amount, fee, _) => p < n && m < n && fee <= amount
    case OpAdjust(a, _, _) => a < n
  }

  function OrElse(k: Books, r: Option<Books>): Books {
    if r.Some? then r.value else k
  }

  /** One transaction; an aborted one leaves the books as they were. */
  function Do(k: Books, op: Op): Books
    requires Legal(|k.accounts|, op)
  {
    match op
    case OpFreeze(a, amount, ref) => OrElse(k, Freeze(k, a, amount, ref))
    case OpRelease(a, amount, ref) => Release(k, a, amount, ref)
    case OpPayOut(s, r, amount, ref) => OrElse(k, PayOut(k, s, r, amount, ref))
    case OpPay(p, m, amount, fee, ref) => OrElse(k, Pay(k, p, m, amount, fee, ref))
    case OpAdjust(a, amount, credit) => OrElse(k, Adjust(k, a, amount, credit))
  }

  function DoAll(k: Books, ops: seq<Op>): (r: Books)
    requires forall op :: op in ops ==> Legal(|k.accounts|, op)
    ensures |r.accounts| == |k.accounts|
    decreases |ops|
  {
    if ops == [] then k else Do(DoAll(k, ops[..|ops| - 1]), ops[|ops| - 1])
  }

  // ---------------------------------------------------------------- conservation

  function TotalOf(): Account -> int { (a: Account) => a.total }

  /** All user money plus the fees taken (the fee account counts downwards). */
  function Money(k: Books): int {
    Sum(k.accounts, TotalOf()) - k.revenue
  }

  /** What an operation brings in from outside: only an adjustment that goes through does. */
  function Injected(k: Books, op: Op): int
    requires Legal(|k.accounts|, op)
  {
    match op
    case OpAdjust(a, amount, credit) =>
      if credit then amount as int else if k.accounts[a].available < amount then 0 else -(amount as int)
    case _ => 0
  }

  lemma PaymentRevenue(payer: nat, merchant: nat, amount: int, fee: int)
    ensures RevenueDelta(PaymentEntries(payer, merchant, amount, fee)) == -fee
    ensures Balanced(PaymentEntries(payer, merchant, amount, fee))
  {
    var e := PaymentEntries(payer, merchant, amount, fee);
    assert e[..2] == [e[0], e[1]] && e[..2][..1] == [e[0]] && e[..1][..0] == [];
    forall f: Entry -> int ensures Sum(e, f) == f(e[0]) + f(e[1]) + f(e[2]) {
      assert Sum(e, f) == Sum(e[..2], f) + f(e[2]);
      assert Sum(e[..2], f) == Sum(e[..2][..1], f) + f(e[1]);
      assert Sum(e[..2][..1], f) == Sum([], f) + f(e[0]);
    }
    assert Sum(e, FeeEntryNet()) == -fee;
    assert Sum(e, DebitOf()) == amount;
    assert Sum(e, CreditOf()) == amount;
  }

  lemma OneAccountChanges(k: Books, k': Books, a: nat)
    requires a < |k.accounts| && k.Sound()
    requires |k'.accounts| == |k.accounts| && k'.accounts == k.accounts[a := k'.accounts[a]]
             && k'.accounts[a].Sound() && k'.revenue == k.revenue
    ensures k'.Sound() && Money(k') == Money(k) + k'.accounts[a].total - k.accounts[a].total
  {
    SumUpdate(k.accounts, a, k'.accounts[a], TotalOf());
  }

  lemma PayOutConserves(k: Books, s: nat, r: nat, amount: nat, ref: Reference)
    requires s < |k.accounts| && r < |k.accounts| && k.Sound() && amount <= k.accounts[s].frozen
    ensures PayOut(k, s, r, amount, ref).value.Sound()
    ensures Money(PayOut(k, s, r, amount, ref).value) == Money(k)
  {
    hide Sum;
    var k' := PayOut(k, s, r, amount, ref).value;
    var x := k.accounts[s];
    var x' := x.(frozen := x.frozen - amount, total := x.total - amount);
    SumUpdate(k.accounts, s, x', TotalOf());
    SumUpdate(k.accounts[s := x'], r, k'.accounts[r], TotalOf());
  }

  lemma PayConserves(k: Books, p: nat, m: nat, amount: nat, fee: nat, ref: Reference)
    requires p < |k.accounts| && m < |k.accounts| && fee <= amount && k.Sound()
    requires amount <= k.accounts[p].available
    ensures Pay(k, p, m, amount, fee, ref).value.Sound()
    ensures Money(Pay(k, p, m, amount, fee, ref).value) == Money(k)
  {
    hide Sum, PaymentEntries, RevenueDelta, Balanced;
    var k' := Pay(k, p, m, amount, fee, ref).value;
    var x := k.accounts[p];
    var x' := x.(available := x.available - amount, total := x.total - amount);
    SumUpdate(k.accounts, p, x', TotalOf());
    SumUpdate(k.accounts[p := x'], m, k'.accounts[m], TotalOf());
    PaymentRevenue(p, m, amount, fee);
  }

  /** Every transaction keeps each account sound, keeps the journal balanced and creates no money. */
  lemma DoConserves(k: Books, op: Op)
    requires Legal(|k.accounts|, op) && k.Sound()
    requires forall g :: g in k.journal ==> Balanced(g)
    ensures |Do(k, op).accounts| == |k.accounts| && Do(k, op).Sound()
    ensures Money(Do(k, op)) == Money(k) + Injected(k, op)
    ensures forall g :: g in Do(k, op).journal ==> Balanced(g)
  {
    hide Sum, PaymentEntries, RevenueDelta, Balanced;
    var k' := Do(k, op);
    if k' != k {
      match op
      case OpFreeze(a, amount, ref) => OneAccountChanges(k, k', a);
      case OpRelease(a, amount, ref) => OneAccountChanges(k, k', a);
      case OpAdjust(a, amount, credit) => OneAccountChanges(k, k', a);
      case OpPayOut(s, r, amount, ref) => PayOutConserves(k, s, r, amount, ref);
      case OpPay(p, m, amount, fee, ref) =>
        PayConserves(k, p, m, amount, fee, ref);
        PaymentRevenue(p, m, amount, fee);
    }
  }

  // ---------------------------------------------------------------- ledger replay

  function Signed(r: Row): int {
    if r.direction == Debit then r.amount else -r.amount
  }

  predicate Mine(r: Row, a: nat) {
    r.account == a && r.side == Available
  }

  /** Reading account `a`'s available-side rows from the newest back leads from `current` to `opening` without a gap. */
  predicate Replays(rows: seq<Row>, a: nat, opening: int, current: int)
    decreases |rows|
  {
    if rows == [] then opening == current
    else
      var r := rows[|rows| - 1];
      var earlier := rows[..|rows| - 1];
      if Mine(r, a) then
        r.after == current && r.after == r.before + Signed(r) && Replays(earlier, a, opening, r.before)
      else
        Replays(earlier, a, opening, current)
  }

  /** Every account's rows replay from its opening balance to its current available balance. */
  ghost predicate LedgerReplays(k: Books, opening: seq<int>) {
    && |opening| == |k.accounts|
    && forall a :: 0 <= a < |opening| ==> Replays(k.ledger, a, opening[a], k.accounts[a].available)
  }

  lemma ReplayOne(rows: seq<Row>, r: Row, a: nat, opening: int, current: int)
    ensures Replays(rows + [r], a, opening, current) ==
            if Mine(r, a)
            then r.after == current && r.after == r.before + Signed(r) && Replays(rows, a, opening, r.before)
            else Replays(rows, a, opening, current)
  {
    assert (rows + [r])[..|rows|] == rows;
  }

  /** `row` records for every account what happened to its available balance. */
  ghost predicate Records(accounts: seq<Account>, row: Row, accounts': seq<Account>) {
    && |accounts'| == |accounts|
    && forall a :: 0 <= a < |accounts| ==>
         if Mine(row, a)
         then row.before == accounts[a].available && row.after == accounts'[a].available
             && row.after == row.before + Signed(row)
         else accounts'[a].available == accounts[a].available
  }

  lemma RowReplays(k: Books, row: Row, k': Books, opening: seq<int>)
    requires LedgerReplays(k, opening) && k'.ledger == k.ledger + [row] && Records(k.accounts, row, k'.accounts)
    ensures LedgerReplays(k', opening)
  {
    forall a | 0 <= a < |opening| ensures Replays(k'.ledger, a, opening[a], k'.accounts[a].available) {
      ReplayOne(k.ledger, row, a, opening[a], k'.accounts[a].available);
    }
  }

  lemma RowsReplay(k: Books, q: Row, between: seq<Account>, r: Row, k': Books, opening: seq<int>)
    requires LedgerReplays(k, opening) && k'.ledger == k.ledger + [q, r]
    requires Records(k.accounts, q, between) && Records(between, r, k'.accounts)
    ensures LedgerReplays(k', opening)
  {
    var middle := k.(accounts := between, ledger := k.ledger + [q]);
    RowReplays(k, q, middle, opening);
    assert k'.ledger == middle.ledger + [r];
    RowReplays(middle, r, k', opening);
  }

  lemma PayOutReplays(k: Books, s: nat, r: nat, amount: nat, ref: Reference, opening: seq<int>)
    requires s < |k.accounts| && r < |k.accounts| && LedgerReplays(k, opening)
    requires amount <= k.accounts[s].frozen
    ensures LedgerReplays(PayOut(k, s, r, amount, ref).value, opening)
  {
    hide Replays, LedgerReplays;
    var k' := PayOut(k, s, r, amount, ref).value;
    RowsReplay(k, k'.ledger[|k.ledger|], k.accounts, k'.ledger[|k.ledger| + 1], k', opening);
  }

  lemma PayReplays(k: Books, p: nat, m: nat, amount: nat, fee: nat, ref: Reference, opening: seq<int>)
    requires p < |k.accounts| && m < |k.accounts| && LedgerReplays(k, opening)
    requires amount <= k.accounts[p].available
    requires p != m || fee == amount
    ensures LedgerReplays(Pay(k, p, m, amount, fee, ref).value, opening)
  {
    hide Replays, LedgerReplays, PaymentEntries, RevenueDelta;
    var k' := Pay(k, p, m, amount, fee, ref).value;
    var x := k.accounts[p];
    var between := k.accounts[p := x.(available := x.available - amount, total := x.total - amount)];
    RowsReplay(k, k'.ledger[|k.ledger|], between, k'.ledger[|k.ledger| + 1], k', opening);
  }

  /** One transaction keeps the replay, except a merchant paying his own order without losing it all to the fee. */
  lemma DoReplays(k: Books, op: Op, opening: seq<int>)
    requires Legal(|k.accounts|, op) && LedgerReplays(k, opening)
    requires op.OpPay? ==> op.payer != op.merchant || op.fee == op.amount
    ensures LedgerReplays(Do(k, op), opening)
  {
    hide Replays, LedgerReplays, PaymentEntries, RevenueDelta;
    var k' := Do(k, op);
    if k' != k {
      match op
      case OpPayOut(s, r, amount, ref) => PayOutReplays(k, s, r, amount, ref, opening);
      case OpPay(p, m, amount, fee, ref) => PayReplays(k, p, m, amount, fee, ref, opening);
      case _ => RowReplays(k, k'.ledger[|k.ledger|], k', opening);
    }
  }

  /** A payer who is the merchant: the two rows fit the ledger exactly when the fee is the whole amount. */
  lemma SelfPaymentReplaysIff(k: Books, a: nat, amount: nat, fee: nat, ref: Reference, opening: seq<int>)
    requires a < |k.accounts| && fee <= amount <= k.accounts[a].available
    requires LedgerReplays(k, opening)
    ensures LedgerReplays(Do(k, OpPay(a, a, amount, fee, ref)), opening) <==> fee == amount
  {
    var op := OpPay(a, a, amount, fee, ref);
    var k' := Do(k, op);
    if fee == amount {
      DoReplays(k, op, opening);
    } else {
      var q, r := k'.ledger[|k.ledger|], k'.ledger[|k.ledger| + 1];
      assert k'.ledger == (k.ledger + [q]) + [r];
      ReplayOne(k.ledger + [q], r, a, opening[a], k'.accounts[a].available);
      ReplayOne(k.ledger, q, a, opening[a], r.before);
      assert !Replays(k'.ledger, a, opening[a], k'.accounts[a].available);
    }
  }

  function InjectedAll(k: Books, ops: seq<Op>): int
    requires forall op :: op in ops ==> Legal(|k.accounts|, op)
    decreases |ops|
  {
    if ops == [] then 0
    else InjectedAll(k, ops[..|ops| - 1]) + Injected(DoAll(k, ops[..|ops| - 1]), ops[|ops| - 1])
  }

  ghost predicate PayersAreNotMerchants(ops: seq<Op>) {
    forall op :: op in ops && op.OpPay? ==> op.payer != op.merchant || op.fee == op.amount
  }

  /** Any interleaving of payments, corrections, freezes, pay-outs and refunds keeps the ledger replayable. */
  lemma {:induction false} AnyRunReplays(k: Books, ops: seq<Op>, opening: seq<int>)
    requires forall op :: op in ops ==> Legal(|k.accounts|, op)
    requires PayersAreNotMerchants(ops)
    requires LedgerReplays(k, opening)
    ensures LedgerReplays(DoAll(k, ops), opening)
    decreases |ops|
  {
    if ops != [] {
      AnyRunReplays(k, ops[..|ops| - 1], opening);
      DoReplays(DoAll(k, ops[..|ops| - 1]), ops[|ops| - 1], opening);
    }
  }

  /**
   Any interleaving keeps accounts sound and journals balanced, and only adjustments change the money in the system.
  */
  lemma {:induction false} AnyRunConserves(k: Books, ops: seq<Op>)
    requires forall op :: op in ops ==> Legal(|k.accounts|, op)
    requires k.Sound() && forall g :: g in k.journal ==> Balanced(g)
    ensures DoAll(k, ops).Sound() && forall g :: g in DoAll(k, ops).journal ==> Balanced(g)
    ensures Money(DoAll(k, ops)) == Money(k) + InjectedAll(k, ops)
    decreases |ops|
  {
    if ops != [] {
      AnyRunConserves(k, ops[..|ops| - 1]);
      DoConserves(DoAll(k, ops[..|ops| - 1]), ops[|ops| - 1]);
    }
  }

  function SignedMine(a: nat): Row -> int {
    (r: Row) => if Mine(r, a) then Signed(r) else 0
  }

  /** What replaying means, row by row: the signed amounts add up, and neighbouring rows share a balance. */
  lemma {:induction false} ReplayMeans(rows: seq<Row>, a: nat, opening: int, current: int)
    requires Replays(rows, a, opening, current)
    ensures current == opening + Sum(rows, SignedMine(a))
    ensures forall i, j :: (0 <= i < j < |rows| && Mine(rows[i], a) && Mine(rows[j], a)
                            && (forall m :: i < m < j ==> !Mine(rows[m], a)))
                           ==> rows[i].after == rows[j].before
    ensures forall j :: (0 <= j < |rows| && Mine(rows[j], a) && (forall m :: j < m < |rows| ==> !Mine(rows[m], a)))
                        ==> rows[j].after == current
  {
    if rows != [] {
      var n := |rows| - 1;
      var before := if Mine(rows[n], a) then rows[n].before else current;
      ReplayMeans(rows[..n], a, opening, before);
      assert forall m :: 0 <= m < n ==> rows[..n][m] == rows[m];
      if Mine(rows[n], a) {
        forall i | 0 <= i < n && Mine(rows[i], a) && (forall m :: i < m < n ==> !Mine(rows[m], a))
          ensures rows[i].after == rows[n].before
        {
          assert forall m :: i < m < |rows[..n]| ==> !Mine(rows[..n][m], a);
        }
      } else {
        forall j | 0 <= j < |rows| && Mine(rows[j], a) && (forall m :: j < m < |rows| ==> !Mine(rows[m], a))
          ensures rows[j].after == current
        {
          assert forall m :: j < m < |rows[..n]| ==> !Mine(rows[..n][m], a);
        }
      }
    }
  }
}
