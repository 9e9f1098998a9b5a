/** The batch transfer service over its tables, updated in place in the order of the source. */
module BatchService {
  import opened Prelude
  import opened Bank
  import opened Users
  import opened BatchModel
  import opened BatchSums
  import A = BatchAnswers

  class BatchTransfersService {
    var users: seq<User>
    var accounts: seq<Account>
    var ledger: seq<Row>
    var journal: seq<seq<Entry>>
    var revenue: int
    var batches: seq<Batch>

    constructor (users: seq<User>, accounts: seq<Account>)
      requires |users| == |accounts|
      ensures Valid() && Db() == Store(users, Books(accounts, [], [], 0), [])
    {
      this.users, this.accounts := users, accounts;
      ledger, journal, revenue, batches := [], [], 0, [];
    }

    ghost function Db(): Store
      reads this
    {
      Store(users, Books(accounts, ledger, journal, revenue), batches)
    }

    ghost predicate Valid()
      reads this
    {
      HasBatches(Db())
    }

    /** Adds to one account's balances. */
    method AddTo(a: nat, available: int, frozen: int, total: int)
      requires a < |accounts|
      modifies this`accounts
      ensures accounts == old(accounts)[a := Account(old(accounts)[a].available + available,
                                                     old(accounts)[a].frozen + frozen, old(accounts)[a].total + total)]
    {
      var x := accounts[a];
      accounts := accounts[a := Account(x.available + available, x.frozen + frozen, x.total + total)];
    }

    /** The batch total, added up item by item. */
    method AddUp(items: seq<Item>) returns (total: nat)
      ensures total == ItemTotal(items)
    {
      total := 0;
      for i := 0 to |items|
        invariant total == ItemTotal(items[..i])
      {
        assert items[..i + 1][..i] == items[..i];
        total := total + items[i].amount;
      }
      assert items[..|items|] == items;
    }

    /** The first transaction of createBatch. */
    method Submit(sender: nat, items: seq<Item>, key: Option<string>, withinLimit: bool, now: int)
      returns (r: Submission)
      requires Valid() && sender < |users|
      modifies this
      ensures Valid()
      ensures r == SubmitResult(old(Db()), sender, items, key, withinLimit, now)
      ensures Db() == if r.Created? then r.db else old(Db())
      ensures r.Created? ==> ItemTotal(items) >= 0 && batches == old(batches) + [
                Batch(sender, key, items, ItemTotal(items), Processing, 0, 0, false, now)]
    {
      NonNegative(items);
      var found := FindKey(batches, key);
      if found.Some? {
        if batches[found.value].sender != sender {
          return Rejected(KeyConflict);
        }
        return Existing(found.value);
      }
      if !withinLimit {
        return Rejected(DailyLimit);
      }
      if !users[sender].hasAccount {
        return Rejected(AccountNotFound);
      }
      if !users[sender].accountActive {
        return Rejected(AccountAbnormal);
      }
      var total := AddUp(items);
      if accounts[sender].available < total {
        return Rejected(InsufficientBalance);
      }
      AddTo(sender, -(total as int), total, 0);
      var after := accounts[sender].available;
      ledger := ledger + [Row(sender, BatchFreeze(|batches|), total, after + total, after, Direction.Credit,
                              Available)];
      batches := batches + [Batch(sender, key, items, total, Processing, 0, 0, false, now)];
      r := Created(Store(users, Books(accounts, ledger, journal, revenue), batches), |batches| - 1);
    }

    /** A conditional update: only a pending item becomes failed. */
    method MarkItemFailed(b: nat, i: nat)
      requires Valid() && b < |batches| && i < |batches[b].items|
      modifies this`batches
      ensures Valid() && Db() == MarkFailed(old(Db()), b, i)
    {
      var x := batches[b].items[i];
      if x.status == Pending {
        batches := batches[b := batches[b].(items := batches[b].items[i := x.(status := Failed)])];
      }
    }

    /**
     One item in its own transaction. A throwing transaction leaves no trace and the item is marked afterwards, unless
     the mark fails as well, which is only logged.
    */
    method ProcessOne(b: nat, i: nat, mishap: Mishap) returns (success: bool)
      requires Valid() && b < |batches| && i < |batches[b].items|
      modifies this
      ensures Valid() && Db() == ProcessItem(old(Db()), b, i, mishap)
      ensures success == Reported(old(Db()), b, i, mishap)
      ensures var x, s := old(batches)[b].items[i], old(batches)[b].sender;
              && (success <==> x.status == Pending && mishap == NoMishap && A.MayReceive(users, x.to)
                               && users[s].hasAccount && old(accounts)[s].frozen >= x.amount)
              && (success && x.to != s ==> A.Sent(old(Db()), Db(), s, x.to, x.amount, BatchItem(b, i)))
              && (!success ==> Db().books == old(Db()).books)
              && batches == old(batches)[b := old(batches)[b].(items := old(batches)[b].items[i := x.(status :=
                              if success then Success
                              else if x.status == Pending && mishap != MarkLost then Failed else x.status)])]
    {
      assert batches[b].items[i := batches[b].items[i]] == batches[b].items;
      if mishap != NoMishap {
        if mishap == Throws {
          MarkItemFailed(b, i);
        }
        return false;
      }
      var sender := batches[b].sender;
      var x := batches[b].items[i];
      var amount: int := x.amount;
      if x.status != Pending {
        return false;
      }
      if ReceiverFault(users, x.to).Some? || !users[sender].hasAccount || accounts[sender].frozen < x.amount {
        MarkItemFailed(b, i);
        return false;
      }
      AddTo(sender, 0, -amount, -amount);
      AddTo(x.to, amount, 0, amount);
      var ref := BatchItem(b, i);
      ledger := ledger + [
        Row(sender, ref, x.amount, accounts[sender].frozen + x.amount, accounts[sender].frozen, Direction.Credit,
            Frozen),
        Row(x.to, ref, x.amount, accounts[x.to].available - x.amount, accounts[x.to].available, Direction.Debit,
            Available)];
      batches := batches[b := batches[b].(items := batches[b].items[i := x.(status := Success)])];
      success := true;
    }

    /** frozen -> available for the batch's sender, if the sender's frozen balance covers it. */
    method ReleaseFrozen(b: nat, amount: int) returns (released: bool)
      requires Valid() && b < |batches|
      modifies this`accounts
      ensures |accounts| == |old(accounts)|
      ensures released == Refundable(old(Db()), b, amount)
      ensures accounts == if released then Unfreeze(old(accounts), old(batches)[b].sender, amount) else old(accounts)
    {
      var s := batches[b].sender;
      released := amount > 0 && users[s].hasAccount && accounts[s].frozen >= amount;
      if released {
        AddTo(s, amount, -amount, 0);
      }
    }

    method Refund(b: nat, amount: int, ref: Reference)
      requires Valid() && b < |batches| && batches[b].sender < |accounts|
      modifies this`ledger
      ensures ledger == old(ledger) + [RefundRow(accounts, batches[b].sender, amount, ref)]
    {
      var s := batches[b].sender;
      ledger := ledger + [Row(s, ref, amount, accounts[s].available - amount, accounts[s].available, Direction.Debit,
                              Available)];
    }

    /** PROCESSING -> COMPLETED, once. */
    method MarkCompleted(b: nat, ok: nat, bad: nat)
      requires Valid() && b < |batches|
      modifies this`batches
      ensures Valid() && batches == old(batches)[b := Complete(old(batches)[b], ok, bad)]
    {
      if batches[b].status == Processing {
        batches := batches[b := batches[b].(status := Completed, successCount := ok, failedCount := bad)];
      } else {
        assert batches[b := batches[b]] == batches;
      }
    }

    /** Every item of the batch, then the finalising transaction, with counters kept in local variables. */
    method WorkThrough(b: nat, faults: nat -> Mishap)
      requires Valid() && b < |batches|
      modifies this
      ensures Valid() && Db() == Drive(old(Db()), b, faults)
    {
      hide ProcessItem, FinaliseTx, Reported;
      var items := batches[b].items;
      var ok, bad, badTotal := 0, 0, 0;
      var i := 0;
      while i < |items|
        invariant 0 <= i <= |items| && Valid()
        invariant Tally(Db(), ok, bad, badTotal) == ItemLoop(old(Db()), b, i, faults)
      {
        var success := ProcessOne(b, i, faults(i));
        if success {
          ok := ok + 1;
        } else {
          bad := bad + 1;
          badTotal := badTotal + items[i].amount;
        }
        i := i + 1;
      }
      Finalise(b, badTotal, ok, bad);
    }

    /** The finalising transaction of createBatch. */
    method Finalise(b: nat, badTotal: int, ok: nat, bad: nat)
      requires Valid() && b < |batches|
      modifies this
      ensures Valid() && Db() == FinaliseTx(old(Db()), b, badTotal, ok, bad)
    {
      var released := ReleaseFrozen(b, badTotal);
      if released {
        Refund(b, badTotal, BatchRefund(b));
        batches := batches[b := batches[b].(items := CoverFailed(batches[b].items), refundOrder := true)];
      }
      MarkCompleted(b, ok, bad);
    }

    /** createBatch: checks, the freezing transaction, and then the loop, also for a batch found by its key. */
    method CreateBatch(sender: nat, requests: seq<ItemRequest>, key: Option<string>, riskBlocked: bool,
                       withinLimit: bool, now: int, faults: nat -> Mishap) returns (r: Result<nat, Error>)
      requires Valid()
      modifies this
      ensures Valid()
      ensures var refusal := CheckRequest(old(users), sender, requests, riskBlocked);
              if refusal.Some? then r == Err(refusal.value) && Db() == old(Db())
              else
                match SubmitResult(old(Db()), sender, FreshItems(requests), key, withinLimit, now)
                case Rejected(e) => r == Err(e) && Db() == old(Db())
                case Existing(b) => r == Ok(b) && Db() == Drive(old(Db()), b, faults)
                case Created(db, b) => r == Ok(b) && HasBatch(db, b) && Db() == Drive(db, b, faults)
      ensures A.Refuses(old(Db()), sender, requests, key, riskBlocked, withinLimit, r, Db())
      ensures r.Ok? && !A.KeyKnown(old(batches), key) && old(accounts)[sender].frozen >= 0 ==>
                A.Stores(old(Db()), sender, requests, key, now, faults, Db())
                    && A.Pays(old(Db()), sender, requests, Db())
    {
      NonNegative(FreshItems(requests));
      var refusal := CheckRequest(users, sender, requests, riskBlocked);
      if refusal.Some? {
        r := Err(refusal.value);
      } else {
        var submitted := Submit(sender, FreshItems(requests), key, withinLimit, now);
        match submitted {
          case Rejected(e) => r := Err(e);
          case Existing(b) => WorkThrough(b, faults); r := Ok(b);
          case Created(_, b) => WorkThrough(b, faults); r := Ok(b);
        }
      }
      A.CreateAnswers(old(Db()), sender, requests, key, riskBlocked, withinLimit, now, faults, r, Db());
    }

    /** Crash recovery of one batch: pending items, counts read back, separate refund writes, completion. */
    method ResumeProcessing(b: nat, faults: nat -> Mishap) returns (resumed: bool)
      requires Valid()
      modifies this
      ensures Valid() && Db() == Resume(old(Db()), b, faults)
      ensures resumed <==> b < |old(batches)| && old(batches)[b].status == Processing
                           && exists i :: 0 <= i < |old(batches)[b].items| && old(batches)[b].items[i].status == Pending
    {
      hide PendingFrom, ResumeLoop, FailedTotal, CountNat, CoverFailed;
      if b >= |batches| || batches[b].status != Processing {
        return false;
      }
      var todo := PendingFrom(batches[b].items, |batches[b].items|);
      if todo == [] {
        return false;
      }
      assert batches[b].items[todo[0]].status == Pending;
      ResumeItems(b, todo, faults);
      var items := batches[b].items;
      var ok, bad, badTotal := Tallied(items);
      if badTotal > 0 && !batches[b].refundOrder {
        var released := ReleaseFrozen(b, badTotal);
        if released {
          batches := batches[b := batches[b].(items := CoverFailed(batches[b].items))];
          batches := batches[b := batches[b].(refundOrder := true)];
          Refund(b, badTotal, BatchRefund(b));
        }
      }
      MarkCompleted(b, ok, bad);
      resumed := true;
    }

    method ResumeItems(b: nat, todo: seq<nat>, faults: nat -> Mishap)
      requires Valid() && b < |batches| && forall k :: 0 <= k < |todo| ==> todo[k] < |batches[b].items|
      modifies this
      ensures Valid() && Db() == ResumeLoop(old(Db()), b, todo, faults)
    {
      var k := 0;
      while k < |todo|
        invariant 0 <= k <= |todo| && Valid()
        invariant b < |batches| && |batches[b].items| == |old(batches)[b].items|
        invariant ResumeLoop(Db(), b, todo[k..], faults) == ResumeLoop(old(Db()), b, todo, faults)
      {
        assert todo[k..][0] == todo[k] && todo[k..][1..] == todo[k + 1..];
        var _ := ProcessOne(b, todo[k], faults(todo[k]));
        k := k + 1;
      }
    }

    /** How many items succeeded and failed, and the failed amount, in one pass. */
    method Tallied(items: seq<Item>) returns (ok: nat, bad: nat, badTotal: int)
      ensures ok == CountNat(items, Succeeded()) && bad == CountNat(items, IsFailed()) && badTotal == FailedTotal(items)
    {
      ok, bad, badTotal := 0, 0, 0;
      for i := 0 to |items|
        invariant ok == CountNat(items[..i], Succeeded()) && bad == CountNat(items[..i], IsFailed())
        invariant badTotal == FailedTotal(items[..i])
      {
        assert items[..i + 1][..i] == items[..i];
        if items[i].status == Success {
          ok := ok + 1;
        } else if items[i].status == Failed {
          bad, badTotal := bad + 1, badTotal + items[i].amount;
        }
      }
      assert items[..|items|] == items;
    }

    method AddUpPending(items: seq<Item>) returns (refund: int)
      ensures refund == PendingTotal(items)
    {
      refund := 0;
      for i := 0 to |items|
        invariant refund == PendingTotal(items[..i])
      {
        assert items[..i + 1][..i] == items[..i];
        if items[i].status == Pending {
          refund := refund + items[i].amount;
        }
      }
      assert items[..|items|] == items;
    }

    /** cancel: one transaction over every pending item. */
    method Cancel(b: nat, user: nat) returns (r: Result<(), Error>)
      requires Valid()
      modifies this
      ensures Valid()
      ensures match CancelTx(old(Db()), b, user)
              case Err(e) => r == Err(e) && Db() == old(Db())
              case Ok(db) => r == Ok(()) && Db() == db
      ensures A.CancelErrors(old(batches), b, user, r)
      ensures r.Ok? ==> A.Cancels(old(Db()), b, Db())
    {
      hide A.Cancels, A.CancelErrors, Sum, CountNat, PendingTotal, FailedTotal;
      A.CancelAnswers(Db(), b, user);
      if b >= |batches| {
        return Err(BatchNotFound);
      }
      if batches[b].sender != user {
        return Err(NotOwner);
      }
      if batches[b].status != Processing {
        return Err(NotCancellable);
      }
      var items := batches[b].items;
      var refund := AddUpPending(items);
      var released := ReleaseFrozen(b, refund);
      items := CancelItems(items, released);
      if released {
        Refund(b, refund, BatchCancel(b));
      }
      var ok, bad, _ := Tallied(items);
      batches := batches[b := batches[b].(items := items, status := Cancelled, successCount := ok, failedCount := bad)];
      r := Ok(());
    }

    /**
     The recovery job: the stuck batches found by its query in turn, until an error ends it after `reached` of them.
    */
    method RecoverStuckBatches(now: int, faults: nat -> nat -> Mishap, reached: nat)
      requires Valid()
      modifies this
      ensures Valid()
      ensures Db() == Sweep(old(Db()), FirstOf(StuckBatches(old(batches), |old(batches)|, now), reached), faults)
      ensures Swept(old(batches), batches, now, reached >= |old(batches)|)
    {
      hide Resume, StuckBatches, Overdue;
      FewAreStuck(batches, |batches|, now);
      SweepCompletesStuckBatches(Db(), now, faults, reached);
      var stuck := FirstOf(StuckBatches(batches, |batches|, now), reached);
      var k := 0;
      while k < |stuck|
        invariant 0 <= k <= |stuck| && Valid() && |batches| == |old(batches)|
        invariant Db() == Sweep(old(Db()), stuck[..k], faults)
      {
        assert stuck[..k + 1][..k] == stuck[..k];
        ghost var before := Db();
        var _ := ResumeProcessing(stuck[k], faults(stuck[k]));
        ResumeOnly(before, stuck[k], faults(stuck[k]));
        k := k + 1;
      }
      assert stuck[..|stuck|] == stuck;
    }
  }

  /** `SubmitTx`, for any items: their total is never negative. */
  ghost function SubmitResult(db: Store, sender: nat, items: seq<Item>, key: Option<string>, withinLimit: bool,
                              now: int): Submission
    requires |db.users| == |db.books.accounts| && sender < |db.users|
  {
    NonNegative(items);
    SubmitTx(db, sender, items, key, withinLimit, now)
  }
}
