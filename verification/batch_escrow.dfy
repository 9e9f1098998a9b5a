/**
 The batch transfer protocol when no two callers work on one batch at a time: many batches, crashes at
 any point, recovery, cancellation, and any other movement on the same accounts, interleaved freely.
 A reachable state's balances are then determined by its items.
*/
module BatchEscrow {
  import opened Prelude
  import opened Bank
  import opened Users
  import opened BatchModel
  import opened BatchSums
  import I = BatchInterleaving

  // ---------------------------------------------------------------- the callers

  /** Where the caller working on a batch stands, with the values it keeps in memory. A crash loses them all. */
  datatype Driver =
    | Idle
    | Creating(next: nat, ok: nat, bad: nat, badTotal: int)
    | Resuming(todo: seq<nat>)
    | Refunding(ok: nat, bad: nat, badTotal: int)
    | Reading(ok: nat, bad: nat, badTotal: int)
    | Ordering(ok: nat, bad: nat, row: Row)
    | Booking(ok: nat, bad: nat, row: Row)
    | Completing(ok: nat, bad: nat)

  /** History: an account's balances as everything but the batches would have left them. */
  datatype Flow = Flow(available: int, frozen: int)

  datatype System = System(db: Store, drivers: seq<Driver>, outside: seq<Flow>)

  ghost predicate InRange(batch: Batch, d: Driver) {
    match d
    case Creating(next, _, _, _) => next <= |batch.items|
    case Resuming(todo) => forall k :: 0 <= k < |todo| ==> todo[k] < |batch.items|
    case _ => true
  }

  /** The driver's next database access. `mishap` is what goes wrong in an item's transaction. */
  function Move(db: Store, b: nat, d: Driver, mishap: Mishap): (r: (Store, Driver))
    requires HasBatch(db, b) && InRange(db.batches[b], d)
  {
    var batch := db.batches[b];
    match d
    case Idle => (db, Idle)
    case Creating(next, ok, bad, badTotal) =>
      if next == |batch.items| then (FinaliseTx(db, b, badTotal, ok, bad), Idle)
      else if Reported(db, b, next, mishap)
      then (ProcessItem(db, b, next, mishap), Creating(next + 1, ok + 1, bad, badTotal))
      else (ProcessItem(db, b, next, mishap), Creating(next + 1, ok, bad + 1, badTotal + batch.items[next].amount))
    case Resuming(todo) =>
      if todo != [] then (ProcessItem(db, b, todo[0], mishap), Resuming(todo[1..]))
      else
        var ok, bad := CountNat(batch.items, Succeeded()), CountNat(batch.items, IsFailed());
        if FailedTotal(batch.items) > 0 && !batch.refundOrder then (db, Refunding(ok, bad, FailedTotal(batch.items)))
        else (db, Completing(ok, bad))
    case Refunding(ok, bad, badTotal) =>
      if Refundable(db, b, badTotal) then (RefundWrite(db, b, badTotal), Reading(ok, bad, badTotal))
      else (db, Completing(ok, bad))
    case Reading(ok, bad, badTotal) =>
      (db, Ordering(ok, bad, RefundRow(db.books.accounts, batch.sender, badTotal, BatchRefund(b))))
    case Ordering(ok, bad, row) => (OrderWrite(db, b), Booking(ok, bad, row))
    case Booking(ok, bad, row) => (LedgerWrite(db, b, row), Completing(ok, bad))
    case Completing(ok, bad) => (CompleteWrite(db, b, ok, bad), Idle)
  }

  datatype Event =
    | Submit(sender: nat, items: seq<Item>, key: Option<string>, withinLimit: bool, now: int)
    | Advance(batch: nat, mishap: Mishap)
    | Crash(batch: nat)
    | Recover(batch: nat)
    | Cancel(batch: nat, user: nat)
    | Retry(sender: nat, key: Option<string>)
    | Elsewhere(account: nat, available: int, frozen: int)
    | ChangeUser(id: nat, profile: User)

  // ---------------------------------------------------------------- where the money is

  function FrozenShare(a: nat): Batch -> int {
    (x: Batch) => if x.sender == a then Held(x.items) else 0
  }

  function AvailableShare(a: nat): Batch -> int {
    (x: Batch) => CreditTo(x.items, a) + if x.sender == a then Returned(x.items) - ItemTotal(x.items) else 0
  }

  ghost predicate Exact(s: System, a: nat)
    requires a < |s.db.books.accounts| && a < |s.outside|
  {
    var x := s.db.books.accounts[a];
    && x.frozen == s.outside[a].frozen + Sum(s.db.batches, FrozenShare(a))
    && x.available == s.outside[a].available + Sum(s.db.batches, AvailableShare(a))
    && x.total == x.available + x.frozen
    && s.outside[a].frozen >= 0
  }

  // ---------------------------------------------------------------- what each driver position implies

  ghost predicate NonePending(items: seq<Item>) {
    forall i :: 0 <= i < |items| ==> items[i].status != Pending
  }

  ghost predicate NoneReleased(items: seq<Item>) {
    forall i :: 0 <= i < |items| ==> items[i].releases == 0
  }

  /** A failed item has been refunded at most once, and no other item ever. */
  ghost predicate ReleasedOnce(items: seq<Item>) {
    forall i :: 0 <= i < |items| ==> items[i].releases <= if items[i].status == Failed then 1 else 0
  }

  ghost predicate Counted(items: seq<Item>, ok: nat, bad: nat) {
    ok == CountNat(items, Succeeded()) && bad == CountNat(items, IsFailed())
  }

  ghost predicate Settled(items: seq<Item>) {
    NonePending(items) && Held(items) == 0
  }

  ghost predicate InPhase(x: Batch, d: Driver) {
    && ReleasedOnce(x.items)
    && x.totalAmount == ItemTotal(x.items)
    && (d != Idle ==> x.status == Processing)
    && match d
       case Idle =>
         && (x.status == Processing ==> NonePending(x.items) || (NoneReleased(x.items) && !x.refundOrder))
         && (x.status == Completed ==> Settled(x.items) && Counted(x.items, x.successCount, x.failedCount))
         && (x.status == Cancelled ==> NonePending(x.items) && Counted(x.items, x.successCount, x.failedCount))
       case Creating(next, ok, bad, badTotal) =>
         && next <= |x.items| && NoneReleased(x.items) && !x.refundOrder
         && (forall i :: 0 <= i < |x.items| ==> x.items[i].status != if i < next then Pending else Success)
         && ok == CountNat(x.items, Succeeded()) && ok + bad == next && badTotal == FailedTotal(x.items[..next])
       case Resuming(todo) =>
         && NoneReleased(x.items) && !x.refundOrder
         && (forall k :: 0 <= k < |todo| ==> todo[k] < |x.items|)
         && (forall k, l :: 0 <= k < l < |todo| ==> todo[k] < todo[l])
         && (forall i :: 0 <= i < |x.items| ==> (x.items[i].status == Pending <==> i in todo))
       case Refunding(ok, bad, badTotal) =>
         && NonePending(x.items) && NoneReleased(x.items) && !x.refundOrder
         && Counted(x.items, ok, bad) && badTotal == FailedTotal(x.items) > 0
       case Reading(ok, bad, _) => Settled(x.items) && Counted(x.items, ok, bad)
       case Ordering(ok, bad, row) => Settled(x.items) && Counted(x.items, ok, bad) && row.ref.BatchRefund?
       case Booking(ok, bad, row) => Settled(x.items) && Counted(x.items, ok, bad) && row.ref.BatchRefund?
       case Completing(ok, bad) => Settled(x.items) && Counted(x.items, ok, bad)
  }

  ghost predicate Accounted(s: System) {
    && |s.outside| == |s.db.books.accounts|
    && forall a :: 0 <= a < |s.outside| ==> Exact(s, a)
  }

  ghost predicate Phased(s: System) {
    && |s.drivers| == |s.db.batches|
    && forall b :: 0 <= b < |s.drivers| ==> InPhase(s.db.batches[b], s.drivers[b])
  }

  ghost predicate SendersExist(db: Store) {
    forall b :: 0 <= b < |db.batches| ==> db.batches[b].sender < |db.users| && db.users[db.batches[b].sender].hasAccount
  }

  /** No two batches share an idempotency key: the column is unique. */
  ghost predicate DistinctKeys(db: Store) {
    forall b, c :: 0 <= b < c < |db.batches| && db.batches[b].key.Some? ==> db.batches[b].key != db.batches[c].key
  }

  /** What makes every event meaningful; it holds in every run, whatever its callers do. */
  ghost predicate Ready(s: System) {
    && HasBatches(s.db) && DistinctKeys(s.db)
    && |s.outside| == |s.db.books.accounts|
    && |s.drivers| == |s.db.batches|
    && forall b :: 0 <= b < |s.drivers| ==> InRange(s.db.batches[b], s.drivers[b])
  }

  ghost predicate Inv(s: System) {
    Ready(s) && I.Valid(s.db) && SendersExist(s.db) && Phased(s) && Accounted(s)
  }

  // ---------------------------------------------------------------- one driver move keeps the balances

  /** Between two states only batch `b` and the accounts changed, and by matching amounts. */
  ghost predicate Transfers(db: Store, db': Store, b: nat)
  {
    && b < |db.batches|
    && |db'.batches| == |db.batches|
    && db'.batches == db.batches[b := db'.batches[b]]
    && |db'.books.accounts| == |db.books.accounts|
    && forall a :: 0 <= a < |db.books.accounts| ==> AccountMoves(db, db', b, a)
  }

  ghost predicate AccountMoves(db: Store, db': Store, b: nat, a: nat)
    requires a < |db.books.accounts| == |db'.books.accounts| && b < |db.batches| == |db'.batches|
  {
    var x, x' := db.books.accounts[a], db'.books.accounts[a];
    var y, y' := db.batches[b], db'.batches[b];
    && x'.frozen - x.frozen == FrozenShare(a)(y') - FrozenShare(a)(y)
    && x'.available - x.available == AvailableShare(a)(y') - AvailableShare(a)(y)
    && x'.total - x.total == x'.available - x.available + x'.frozen - x.frozen
  }

  lemma TransfersKeepAccounts(s: System, s': System, b: nat)
    requires Accounted(s) && s'.outside == s.outside && Transfers(s.db, s'.db, b)
    ensures Accounted(s')
  {
    forall a | 0 <= a < |s'.outside| ensures Exact(s', a) {
      assert Exact(s, a) && AccountMoves(s.db, s'.db, b, a);
      SumUpdate(s.db.batches, b, s'.db.batches[b], FrozenShare(a));
      SumUpdate(s.db.batches, b, s'.db.batches[b], AvailableShare(a));
    }
  }

  lemma FailureTransfers(db: Store, b: nat, i: nat)
    requires Addresses(db, b, i) && db.batches[b].items[i].status == Pending && db.batches[b].items[i].releases == 0
    ensures Transfers(db, MarkFailed(db, b, i), b)
  {
    var db' := MarkFailed(db, b, i);
    var items, x' := db.batches[b].items, db'.batches[b].items[i];
    OneItem(items, i, x');
    forall a | 0 <= a < |db.books.accounts| ensures AccountMoves(db, db', b, a) {
      OneCredit(items, i, x', a);
    }
  }

  lemma PaymentTransfers(db: Store, b: nat, i: nat)
    requires Addresses(db, b, i) && db.batches[b].items[i].status == Pending && db.batches[b].items[i].releases == 0
    requires ProcessTx(db, b, i).batches[b].items[i].status == Success
    ensures Transfers(db, ProcessTx(db, b, i), b)
  {
    var db' := ProcessTx(db, b, i);
    var items, x := db.batches[b].items, db.batches[b].items[i];
    var x' := x.(status := Success);
    OneItem(items, i, x');
    forall a | 0 <= a < |db.books.accounts| ensures AccountMoves(db, db', b, a) {
      OneCredit(items, i, x', a);
    }
  }

  lemma ProcessTransfers(db: Store, b: nat, i: nat, mishap: Mishap)
    requires Addresses(db, b, i)
    requires ReleasedOnce(db.batches[b].items)
    ensures Transfers(db, ProcessItem(db, b, i, mishap), b)
  {
    var db' := ProcessItem(db, b, i, mishap);
    assert db'.batches[b].items[i].status == Success || db' == MarkFailed(db, b, i) || db' == db;
    if db' != db {
      if db' == MarkFailed(db, b, i) {
        FailureTransfers(db, b, i);
      } else {
        PaymentTransfers(db, b, i);
      }
    } else {
      assert forall a :: 0 <= a < |db.books.accounts| ==> AccountMoves(db, db', b, a);
    }
  }

  lemma RefundTransfers(db: Store, db': Store, b: nat, amount: int)
    requires HasBatch(db, b) && Refundable(db, b, amount)
    requires |db'.batches| == |db.batches| && db'.batches == db.batches[b := db'.batches[b]]
    requires db'.books.accounts == Unfreeze(db.books.accounts, db.batches[b].sender, amount)
    requires db'.batches[b].sender == db.batches[b].sender
    requires var x, y := db.batches[b].items, db'.batches[b].items;
             && Held(y) == Held(x) - amount && Returned(y) == Returned(x) + amount && ItemTotal(y) == ItemTotal(x)
             && forall a :: CreditTo(y, a) == CreditTo(x, a)
    ensures Transfers(db, db', b)
  {
  }

  lemma CoverTransfers(db: Store, db': Store, b: nat)
    requires HasBatch(db, b)
    requires NonePending(db.batches[b].items) && NoneReleased(db.batches[b].items)
    requires Refundable(db, b, FailedTotal(db.batches[b].items))
    requires |db'.batches| == |db.batches| && db'.batches == db.batches[b := db'.batches[b]]
    requires db'.books.accounts == Unfreeze(db.books.accounts, db.batches[b].sender, FailedTotal(db.batches[b].items))
    requires db'.batches[b].sender == db.batches[b].sender
    requires db'.batches[b].items == CoverFailed(db.batches[b].items)
    ensures Transfers(db, db', b)
    ensures Settled(db'.batches[b].items) && ReleasedOnce(db'.batches[b].items)
    ensures ItemTotal(db'.batches[b].items) == ItemTotal(db.batches[b].items)
    ensures forall ok, bad :: Counted(db.batches[b].items, ok, bad) ==> Counted(db'.batches[b].items, ok, bad)
  {
    hide Sum;
    var items := db.batches[b].items;
    CoverSums(items);
    HeldIsFailed(items);
    NoneOf(items, AmountIf(IsPending()));
    RefundTransfers(db, db', b, FailedTotal(items));
  }

  /** The escrow invariant makes every guard on the frozen balance succeed. */
  lemma GuardsHold(s: System, b: nat)
    requires Inv(s) && b < |s.db.batches|
    ensures s.db.books.accounts[s.db.batches[b].sender].frozen >= Held(s.db.batches[b].items)
  {
    var a := s.db.batches[b].sender;
    forall n | 0 <= n < |s.db.batches| ensures FrozenShare(a)(s.db.batches[n]) >= 0 {
      NonNegative(s.db.batches[n].items);
    }
    SumNonNegative(s.db.batches, FrozenShare(a));
    assert Exact(s, a);
    assert FrozenShare(a)(s.db.batches[b]) <= Sum(s.db.batches, FrozenShare(a));
  }

  /** An item is paid exactly when its receiver is eligible: the sender's frozen money always suffices. */
  lemma VerdictOnly(s: System, b: nat, i: nat, mishap: Mishap)
    requires Inv(s) && b < |s.db.batches| && i < |s.db.batches[b].items|
    requires s.db.batches[b].items[i].status == Pending
    ensures ProcessItem(s.db, b, i, mishap).batches[b].items[i].status ==
            if mishap == MarkLost then Pending
            else if mishap == Throws || ReceiverFault(s.db.users, s.db.batches[b].items[i].to).Some?
            then Failed else Success
  {
    var items := s.db.batches[b].items;
    GuardsHold(s, b);
    forall j | 0 <= j < |items| ensures AmountIf(HeldItem())(items[j]) >= 0 { }
    SumNonNegative(items, AmountIf(HeldItem()));
    assert AmountIf(HeldItem())(items[i]) <= Held(items);
  }
}
