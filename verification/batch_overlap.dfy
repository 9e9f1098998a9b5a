/**
 What happens when a caller works on a batch that another one already decided: a replayed idempotency key,
 a cancellation or a recovery during createBatch, a recovery after a lost failure mark. The item guard holds, the
 refund guard does not.
*/
module BatchOverlap {
  import opened Prelude
  import opened Bank
  import opened BatchModel
  import opened BatchLoops
  import opened BatchSums
  import E = BatchEscrow
  import I = BatchInterleaving

  /** Working through decided items again asks for a refund of the whole batch. */
  lemma DriveOverDecided(db: Store, b: nat, faults: nat -> Mishap)
    requires HasBatch(db, b) && E.NonePending(db.batches[b].items)
    ensures Drive(db, b, faults) ==
            FinaliseTx(db, b, ItemTotal(db.batches[b].items), 0, |db.batches[b].items|)
  {
    var items := db.batches[b].items;
    LoopInTwoParts(db, b, 0, |items|, faults);
    LoopOverDecided(Tally(db, 0, 0, 0), b, 0, |items|, faults);
    assert items[0..|items|] == items;
  }

  ghost predicate SameButHistory(x: Batch, y: Batch) {
    && y == x.(items := y.items, refundOrder := y.refundOrder)
    && |y.items| == |x.items|
    && forall i :: 0 <= i < |x.items| ==> y.items[i] == x.items[i].(releases := y.items[i].releases)
  }

  /**
   Replaying the key of a completed batch changes no item, counter or status. It leaves the books alone exactly
   when the sender's frozen balance is below the batch total, or the total is zero.
  */
  lemma ReplayIsIdempotentIff(db: Store, b: nat, sender: nat, items: seq<Item>, key: Option<string>, withinLimit: bool,
                              now: int, faults: nat -> Mishap)
    requires HasBatch(db, b) && db.batches[b].status == Completed && E.NonePending(db.batches[b].items)
    requires db.users[db.batches[b].sender].hasAccount
    requires FindKey(db.batches, key) == Some(b) && sender == db.batches[b].sender && ItemTotal(items) >= 0
    ensures SubmitTx(db, sender, items, key, withinLimit, now) == Existing(b)
    ensures SameButHistory(db.batches[b], Drive(db, b, faults).batches[b])
    ensures Drive(db, b, faults).books == db.books <==>
            var total := ItemTotal(db.batches[b].items);
            total == 0 || db.books.accounts[sender].frozen < total
  {
    var batch := db.batches[b];
    var total := ItemTotal(batch.items);
    DriveOverDecided(db, b, faults);
    NonNegative(batch.items);
    if total > 0 && db.books.accounts[sender].frozen >= total {
      var k' := Drive(db, b, faults).books;
      assert k'.accounts[sender].frozen == db.books.accounts[sender].frozen - total;
    }
  }

  // ---------------------------------------------------------------- a cancellation while createBatch is at work

  /** One item after `n` refunds more, if a cancellation or an earlier failure makes it refundable. */
  function Refunded(x: Item, n: nat): Item {
    if x.status == Success then x else x.(status := Failed, releases := x.releases + n)
  }

  /** The rest of a createBatch call that stands before item `k`, on tables another caller has changed. */
  function DriveOn(t: Tally, b: nat, k: nat, faults: nat -> Mishap): Store
    requires HasBatch(t.db, b) && k <= |t.db.batches[b].items|
  {
    var u := LoopOn(t, b, k, |t.db.batches[b].items|, faults);
    FinaliseTx(u.db, b, u.badTotal, u.ok, u.bad)
  }

  ghost predicate CancelledOver(t: Tally, b: nat, k: nat, faults: nat -> Mishap, first: bool, second: bool)
    requires HasBatch(t.db, b) && k <= |t.db.batches[b].items| && CancelTx(t.db, b, t.db.batches[b].sender).Ok?
  {
    var x := t.db.batches[b];
    var rest, asked := PendingTotal(x.items), t.badTotal + ItemTotal(x.items[k..]);
    var end := DriveOn(t.(db := CancelTx(t.db, b, x.sender).value), b, k, faults);
    && HasBatch(end, b) && end.batches[b].status == Cancelled && |end.batches[b].items| == |x.items|
    && FrozenOf(end, b) == FrozenOf(t.db, b) - (if first then rest else 0) - (if second then asked else 0)
    && forall i :: 0 <= i < |x.items| ==>
         end.batches[b].items[i] ==
         Refunded(x.items[i], (if first && x.items[i].status == Pending then 1 else 0) + if second then 1 else 0)
  }

  /** What the cancellation itself leaves behind. */
  lemma CancelState(db: Store, b: nat)
    requires HasBatch(db, b) && db.batches[b].status == Processing && db.users[db.batches[b].sender].hasAccount
    ensures var x := db.batches[b];
            var rest := PendingTotal(x.items);
            var first := rest > 0 && FrozenOf(db, b) >= rest;
            var r := CancelTx(db, b, x.sender);
            && r.Ok? && HasBatch(r.value, b) && r.value.users == db.users
            && r.value.batches[b].sender == x.sender && r.value.batches[b].status == Cancelled
            && r.value.batches[b].items == CancelItems(x.items, first)
            && FrozenOf(r.value, b) == FrozenOf(db, b) - if first then rest else 0
  {
    hide Sum;
  }

  /** What the finaliser makes of a batch that is no longer processing. */
  lemma FinaliseState(db: Store, b: nat, badTotal: int, ok: nat, bad: nat)
    requires HasBatch(db, b) && db.batches[b].status != Processing && db.users[db.batches[b].sender].hasAccount
    ensures var second := badTotal > 0 && FrozenOf(db, b) >= badTotal;
            var end := FinaliseTx(db, b, badTotal, ok, bad);
            && HasBatch(end, b) && end.batches[b].status == db.batches[b].status
            && end.batches[b].successCount == db.batches[b].successCount
            && end.batches[b].failedCount == db.batches[b].failedCount
            && end.batches[b].items == (if second then CoverFailed(db.batches[b].items) else db.batches[b].items)
            && FrozenOf(end, b) == FrozenOf(db, b) - if second then badTotal else 0
  {
  }

  /** A call that goes on over decided items asks for what it saw fail and for all that is left. */
  lemma DriveOnOverDecided(t: Tally, b: nat, k: nat, faults: nat -> Mishap)
    requires HasBatch(t.db, b) && k <= |t.db.batches[b].items| && E.NonePending(t.db.batches[b].items)
    ensures var n := |t.db.batches[b].items|;
            DriveOn(t, b, k, faults) ==
            FinaliseTx(t.db, b, t.badTotal + ItemTotal(t.db.batches[b].items[k..]), t.ok, t.bad + n - k)
  {
    hide Sum, FinaliseTx, LoopOn;
    var n := |t.db.batches[b].items|;
    LoopOverDecided(t, b, k, n, faults);
    assert t.db.batches[b].items[k..n] == t.db.batches[b].items[k..];
  }

  /** The two refunds, item by item. */
  lemma RefundedItems(x: seq<Item>, first: bool, second: bool)
    ensures var y := CancelItems(x, first);
            var z := if second then CoverFailed(y) else y;
            && E.NonePending(y) && |z| == |x|
            && forall i :: 0 <= i < |x| ==>
                 z[i] == Refunded(x[i], (if first && x[i].status == Pending then 1 else 0) + if second then 1 else 0)
  {
    var y := CancelItems(x, first);
    var z := if second then CoverFailed(y) else y;
    hide CancelItems, CoverFailed;
    forall i | 0 <= i < |x|
      ensures z[i] == Refunded(x[i], (if first && x[i].status == Pending then 1 else 0) + if second then 1 else 0)
    {
      assert y[i] == CancelItem(x[i], first);
    }
  }

  /**
   A cancellation after any number of items. It refunds what is pending; the finaliser, whose counters know nothing of
   it, then asks for everything it saw fail and for all items after the cancellation, and gets that sum exactly when
   the frozen money left by the cancellation covers it.
  */
  lemma CancelDuringCreate(t: Tally, b: nat, k: nat, faults: nat -> Mishap)
    requires HasBatch(t.db, b) && k <= |t.db.batches[b].items| && t.db.batches[b].status == Processing
    requires t.db.users[t.db.batches[b].sender].hasAccount
    ensures var x := t.db.batches[b];
            var rest, asked := PendingTotal(x.items), t.badTotal + ItemTotal(x.items[k..]);
            var first := rest > 0 && FrozenOf(t.db, b) >= rest;
            && CancelTx(t.db, b, x.sender).Ok?
            && CancelledOver(t, b, k, faults, first,
                             asked > 0 && FrozenOf(t.db, b) - (if first then rest else 0) >= asked)
  {
    hide Sum, CancelTx, FinaliseTx, DriveOn, CancelItems, CoverFailed;
    var x := t.db.batches[b];
    var rest, asked := PendingTotal(x.items), t.badTotal + ItemTotal(x.items[k..]);
    var first := rest > 0 && FrozenOf(t.db, b) >= rest;
    CancelState(t.db, b);
    var db' := CancelTx(t.db, b, x.sender).value;
    RefundedItems(x.items, first, asked > 0 && FrozenOf(t.db, b) - (if first then rest else 0) >= asked);
    DriveOnOverDecided(t.(db := db'), b, k, faults);
    SameAmountsSameTotal(x.items[k..], db'.batches[b].items[k..]);
    FinaliseState(db', b, asked, t.ok, t.bad + |x.items| - k);
  }

  lemma SameAmountsSameTotal(x: seq<Item>, y: seq<Item>)
    requires |x| == |y| && forall i :: 0 <= i < |x| ==> y[i].amount == x[i].amount
    ensures ItemTotal(x) == ItemTotal(y)
  {
    SumCong(x, y, AmountIf(Anything()), AmountIf(Anything()));
  }

  /** Nothing of the batch is decided yet, and the sender's frozen money covers all of it. */
  ghost predicate FreshlyFrozen(db: Store, b: nat)
    requires HasBatch(db, b)
  {
    && db.batches[b].status == Processing && db.users[db.batches[b].sender].hasAccount
    && I.IsFresh(db.batches[b].items)
    && FrozenOf(db, b) >= ItemTotal(db.batches[b].items)
  }

  /** Before item `k` the call has seen exactly the failed money fail, and the money after it is pending. */
  lemma LoopFromFresh(db: Store, b: nat, k: nat, faults: nat -> Mishap)
    requires HasBatch(db, b) && k <= |db.batches[b].items| && FreshlyFrozen(db, b)
    requires forall i: nat :: i < k ==> faults(i) != MarkLost
    ensures var t := ItemLoop(db, b, k, faults);
            var rest := ItemTotal(db.batches[b].items[k..]);
            && Passed(db, t.db, b)
            && t.badTotal == FailedTotal(t.db.batches[b].items)
            && ItemTotal(t.db.batches[b].items[k..]) == rest && PendingTotal(t.db.batches[b].items) == rest
            && FrozenOf(t.db, b) == FrozenOf(db, b) - ItemTotal(db.batches[b].items) + t.badTotal + rest
            && forall i :: 0 <= i < |db.batches[b].items| ==>
                 (t.db.batches[b].items[i].status == Pending <==> i >= k) && t.db.batches[b].items[i].releases == 0
  {
    hide Sum, ItemLoop;
    var x := db.batches[b].items;
    var t := ItemLoop(db, b, k, faults);
    var y := t.db.batches[b].items;
    LoopPasses(db, b, k, faults);
    NoneOf(x, AmountIf(Succeeded()));
    TotalSplits(y);
    forall i | 0 <= i < |x| ensures (y[i].status == Pending <==> i >= k) && y[i].releases == 0 {
      assert ItemPassed(x[i], y[i]);
    }
    PendingIsTail(y, k);
    assert x == x[..k] + x[k..] && y[k..] == x[k..];
    SumConcat(x[..k], x[k..], AmountIf(Anything()));
  }

  lemma PendingIsTail(y: seq<Item>, k: nat)
    requires k <= |y| && forall i :: 0 <= i < |y| ==> (y[i].status == Pending <==> i >= k)
    ensures PendingTotal(y) == ItemTotal(y[k..])
  {
    hide Sum;
    assert y == y[..k] + y[k..];
    SumConcat(y[..k], y[k..], AmountIf(IsPending()));
    NoneOf(y[..k], AmountIf(IsPending()));
    SumCong(y[k..], y[k..], AmountIf(IsPending()), AmountIf(Anything()));
  }

  /**
   A cancellation before item `k` of an undisturbed createBatch. Let `rest` be the money of the items from `k` on and
   `other` the sender's frozen money that does not belong to the batch. If `other` covers a positive `rest`, the items
   from `k` on are refunded twice. If it does not, they are refunded once, and the items that failed before the
   cancellation are never refunded.
  */
  lemma CancelDuringCreateRefundsTwiceIff(db: Store, b: nat, k: nat, faults: nat -> Mishap)
    requires HasBatch(db, b) && k <= |db.batches[b].items| && FreshlyFrozen(db, b)
    requires forall i: nat :: i < k ==> faults(i) != MarkLost
    ensures var t := ItemLoop(db, b, k, faults);
            var cancelled := CancelTx(t.db, b, db.batches[b].sender);
            var rest := ItemTotal(db.batches[b].items[k..]);
            var other := FrozenOf(db, b) - ItemTotal(db.batches[b].items);
            && cancelled.Ok?
            && var end := DriveOn(t.(db := cancelled.value), b, k, faults);
               && b < |end.batches| && end.batches[b].status == Cancelled
               && |end.batches[b].items| == |db.batches[b].items|
               && (rest > 0 ==> forall i :: k <= i < |db.batches[b].items| ==>
                     end.batches[b].items[i].releases == if other >= rest then 2 else 1)
               && forall i :: 0 <= i < k && end.batches[b].items[i].status == Failed && t.badTotal + rest > 0 ==>
                    end.batches[b].items[i].releases == if other >= rest then 1 else 0
  {
    hide Sum, ItemLoop, DriveOn, CancelTx;
    var t := ItemLoop(db, b, k, faults);
    LoopFromFresh(db, b, k, faults);
    CancelDuringCreate(t, b, k, faults);
    NonNegative(t.db.batches[b].items);
    NonNegative(t.db.batches[b].items[k..]);
  }

  // ---------------------------------------------------------------- failure marks that are lost

  /** Some pending item of the batch fails without being marked. */
  ghost predicate LosesMark(items: seq<Item>, faults: nat -> Mishap) {
    exists i :: 0 <= i < |items| && items[i].status == Pending && faults(i) == MarkLost
  }

  ghost predicate SomePending(items: seq<Item>) {
    exists i :: 0 <= i < |items| && items[i].status == Pending
  }

  lemma RecoveryActsIff(db: Store, b: nat, faults: nat -> Mishap)
    requires HasBatch(db, b)
    ensures PendingFrom(db.batches[b].items, |db.batches[b].items|) != [] <==> SomePending(db.batches[b].items)
    ensures !SomePending(db.batches[b].items) || db.batches[b].status != Processing ==> Resume(db, b, faults) == db
  {
    var items := db.batches[b].items;
    var todo := PendingFrom(items, |items|);
    if todo != [] { assert items[todo[0]].status == Pending; }
    if SomePending(items) {
      var i :| 0 <= i < |items| && items[i].status == Pending;
      assert i in todo;
    }
  }

  lemma FinishKeepsStatuses(db: Store, b: nat)
    requires HasBatch(db, b)
    ensures var end := ResumeFinish(db, b);
            && HasBatch(end, b) && |end.batches[b].items| == |db.batches[b].items|
            && (db.batches[b].status == Processing ==> end.batches[b].status == Completed)
            && forall i :: 0 <= i < |db.batches[b].items| ==>
               end.batches[b].items[i].status == db.batches[b].items[i].status
  {
  }

  /**
   Recovery completes the batch even when a failed item could not be marked. An item is then pending in the completed
   batch exactly when it was pending and lost its mark, its money is not in the refund, and no recovery returns to it.
  */
  lemma RecoveryLeavesPendingIff(db: Store, b: nat, faults: nat -> Mishap, later: nat -> Mishap)
    requires HasBatch(db, b) && db.batches[b].status == Processing && SomePending(db.batches[b].items)
    ensures var end := Resume(db, b, faults);
            && HasBatch(end, b) && |end.batches[b].items| == |db.batches[b].items|
            && end.batches[b].status == Completed
            && (forall i :: 0 <= i < |db.batches[b].items| ==>
                  (end.batches[b].items[i].status == Pending <==>
                     db.batches[b].items[i].status == Pending && faults(i) == MarkLost))
            && (SomePending(end.batches[b].items) <==> LosesMark(db.batches[b].items, faults))
            && Resume(end, b, later) == end
  {
    hide Sum, ResumeFinish, ResumeLoop;
    var items := db.batches[b].items;
    var todo := PendingFrom(items, |items|);
    RecoveryActsIff(db, b, faults);
    ResumePasses(db, b, todo, faults);
    FinishKeepsStatuses(ResumeLoop(db, b, todo, faults), b);
    RecoveryActsIff(Resume(db, b, faults), b, later);
  }

  /**
   createBatch refunds an item whose mark was lost along with the failed ones, and leaves it pending in the completed
   batch: nothing of the batch stays frozen, yet a replayed key would pay the item out of other frozen money.
  */
  lemma CreateLeavesPendingIff(db: Store, b: nat, faults: nat -> Mishap)
    requires HasBatch(db, b) && FreshlyFrozen(db, b)
    ensures var end := Drive(db, b, faults);
            && HasBatch(end, b) && |end.batches[b].items| == |db.batches[b].items|
            && end.batches[b].status == Completed
            && FrozenOf(end, b) == FrozenOf(db, b) - ItemTotal(db.batches[b].items)
            && forall i :: 0 <= i < |db.batches[b].items| ==>
                 (end.batches[b].items[i].status == Pending <==> faults(i) == MarkLost)
  {
    hide Sum, ItemLoop;
    var items := db.batches[b].items;
    var t := ItemLoop(db, b, |items|, faults);
    LoopPasses(db, b, |items|, faults);
    assert items[..|items|] == items;
    NoneOf(items, AmountIf(Succeeded()));
    TotalSplits(t.db.batches[b].items);
    NonNegative(t.db.batches[b].items);
  }

  /** The state of a recovery that stops right after its refund, before the refund order. */
  function StoppedAfterRefund(db: Store, b: nat, faults: nat -> Mishap): Store
    requires HasBatch(db, b)
  {
    var now := ResumeLoop(db, b, PendingFrom(db.batches[b].items, |db.batches[b].items|), faults);
    RefundWrite(now, b, FailedTotal(now.batches[b].items))
  }

  /** A recovery of a processing batch that has something to refund and can. */
  ghost predicate RefundsInRecovery(db: Store, b: nat, faults: nat -> Mishap)
    requires HasBatch(db, b)
  {
    var now := ResumeLoop(db, b, PendingFrom(db.batches[b].items, |db.batches[b].items|), faults);
    && db.batches[b].status == Processing && !db.batches[b].refundOrder && SomePending(db.batches[b].items)
    && Refundable(now, b, FailedTotal(now.batches[b].items))
  }

  lemma SameSums(y: seq<Item>, z: seq<Item>)
    requires |z| == |y| && forall i :: 0 <= i < |y| ==> z[i] == y[i].(releases := z[i].releases)
    ensures ItemTotal(z) == ItemTotal(y) && PaidTotal(z) == PaidTotal(y)
    ensures FailedTotal(z) == FailedTotal(y) && PendingTotal(z) == PendingTotal(y)
  {
    hide Sum;
    SumCong(y, z, AmountIf(Anything()), AmountIf(Anything()));
    SumCong(y, z, AmountIf(Succeeded()), AmountIf(Succeeded()));
    SumCong(y, z, AmountIf(IsFailed()), AmountIf(IsFailed()));
    SumCong(y, z, AmountIf(IsPending()), AmountIf(IsPending()));
  }

  lemma RefundSums(now: Store, b: nat)
    requires HasBatch(now, b) && Refundable(now, b, FailedTotal(now.batches[b].items))
    ensures var cut := RefundWrite(now, b, FailedTotal(now.batches[b].items));
            var x, y := now.batches[b], cut.batches[b];
            && HasBatch(cut, b) && y == x.(items := CoverFailed(x.items)) && cut.users == now.users
            && FrozenOf(cut, b) == FrozenOf(now, b) - FailedTotal(x.items)
            && ItemTotal(y.items) == ItemTotal(x.items) && PaidTotal(y.items) == PaidTotal(x.items)
            && FailedTotal(y.items) == FailedTotal(x.items) && PendingTotal(y.items) == PendingTotal(x.items)
  {
    hide Sum;
    var items := now.batches[b].items;
    SameSums(items, CoverFailed(items));
  }

  /** The second recovery, over tables on which an earlier one stopped after its refund. */
  lemma SecondRecovery(db: Store, b: nat, faults: nat -> Mishap, cut: Store, later: nat -> Mishap)
    requires HasBatch(db, b) && RefundsInRecovery(db, b, faults) && cut == StoppedAfterRefund(db, b, faults)
    ensures HasBatch(cut, b) && |cut.batches[b].items| == |db.batches[b].items|
    ensures cut.batches[b].status == Processing && !cut.batches[b].refundOrder
    ensures cut.users == db.users && cut.batches[b].sender == db.batches[b].sender
    ensures SomePending(cut.batches[b].items) <==> LosesMark(db.batches[b].items, faults)
    ensures forall i :: 0 <= i < |db.batches[b].items| ==>
              var x, y := db.batches[b].items[i], cut.batches[b].items[i];
              y.amount == x.amount && (y.status == Pending <==> x.status == Pending && faults(i) == MarkLost)
    ensures ItemTotal(cut.batches[b].items) == ItemTotal(db.batches[b].items)
    ensures FrozenOf(cut, b) + PaidTotal(cut.batches[b].items) + FailedTotal(cut.batches[b].items) ==
            FrozenOf(db, b) + PaidTotal(db.batches[b].items)
  {
    hide PendingFrom, Sum, ResumeLoop;
    var todo := PendingFrom(db.batches[b].items, |db.batches[b].items|);
    var now := ResumeLoop(db, b, todo, faults);
    RecoveryActsIff(db, b, faults);
    ResumePasses(db, b, todo, faults);
    RefundSums(now, b);
    forall i | 0 <= i < |db.batches[b].items|
      ensures var x, y := db.batches[b].items[i], cut.batches[b].items[i];
              y.amount == x.amount && (y.status == Pending <==> x.status == Pending && faults(i) == MarkLost)
    {
      assert ItemPassed(db.batches[b].items[i], now.batches[b].items[i]);
    }
    if i :| 0 <= i < |cut.batches[b].items| && cut.batches[b].items[i].status == Pending {
      assert now.batches[b].items[i].status == Pending;
    }
    if LosesMark(db.batches[b].items, faults) {
      var i :| 0 <= i < |db.batches[b].items| && db.batches[b].items[i].status == Pending && faults(i) == MarkLost;
      assert cut.batches[b].items[i].status == Pending;
    }
  }

  function LostTwice(faults: nat -> Mishap, later: nat -> Mishap): nat -> bool {
    (i: nat) => faults(i) == MarkLost && later(i) == MarkLost
  }

  /** What stays pending through two loops is the money of the items that lost their mark in both. */
  lemma LostAgain(x: seq<Item>, y: seq<Item>, z: seq<Item>, faults: nat -> Mishap, later: nat -> Mishap)
    requires |x| == |y| == |z|
    requires forall i :: 0 <= i < |x| ==>
               y[i].amount == x[i].amount && (y[i].status == Pending <==>
                                              x[i].status == Pending && faults(i) == MarkLost)
    requires forall i :: 0 <= i < |x| ==>
               ItemPassed(y[i], z[i]) && (z[i].status == Pending <==> y[i].status == Pending && later(i) == MarkLost)
    ensures PendingTotal(z) == LostMoney(x, LostTwice(faults, later))
  {
    LostMoneyStaysPending(x, z, LostTwice(faults, later));
  }

  /** What `ResumeFinish` refunds, item by item. */
  lemma FinishRefunds(now: Store, b: nat)
    requires HasBatch(now, b) && now.users[now.batches[b].sender].hasAccount
    ensures var end := ResumeFinish(now, b);
            var owed := FailedTotal(now.batches[b].items);
            var refunds := !now.batches[b].refundOrder && owed > 0 && FrozenOf(now, b) >= owed;
            && HasBatch(end, b) && |end.batches[b].items| == |now.batches[b].items|
            && end.users == now.users && end.batches[b].sender == now.batches[b].sender
            && FrozenOf(end, b) == FrozenOf(now, b) - (if refunds then owed else 0)
            && forall i :: 0 <= i < |now.batches[b].items| ==>
                 end.batches[b].items[i] == if refunds then Cover(now.batches[b].items[i]) else now.batches[b].items[i]
  {
    hide Sum;
  }

  /**
   When is failed money refunded twice? A first recovery refunds `first` and stops before its refund order; a second
   one runs. Its refund repeats the first exactly when the first recovery lost the mark of some item, without which
   there is no second recovery, and the sender's other frozen money, with that of the items whose mark both recoveries
   lose, covers `first`. Had the order been written, the second refund would not happen, and newly failed money would
   stay.
  */
  lemma RecoveryRefundsTwiceIff(db: Store, b: nat, faults: nat -> Mishap, later: nat -> Mishap)
    requires HasBatch(db, b) && RefundsInRecovery(db, b, faults) && db.users[db.batches[b].sender].hasAccount
    ensures var x := db.batches[b].items;
            var cut := StoppedAfterRefund(db, b, faults);
            var end := Resume(cut, b, later);
            && HasBatch(cut, b) && HasBatch(end, b) && |cut.batches[b].items| == |x| == |end.batches[b].items|
            && var first := FailedTotal(cut.batches[b].items);
               var other := FrozenOf(db, b) - FailedTotal(x) - PendingTotal(x);
               var twice := LosesMark(x, faults) && other + LostMoney(x, LostTwice(faults, later)) >= first;
               && first > 0
               && (forall i :: 0 <= i < |x| && cut.batches[b].items[i].status == Failed ==>
                     end.batches[b].items[i].releases == x[i].releases + if twice then 2 else 1)
               && (!LosesMark(x, faults) ==> end == cut)
  {
    hide Sum, ResumeLoop, ResumeFinish, StoppedAfterRefund, RefundsInRecovery;
    var x := db.batches[b].items;
    var cut := StoppedAfterRefund(db, b, faults);
    FirstRefund(db, b, faults);
    SecondRecovery(db, b, faults, cut, later);
    RecoveryActsIff(cut, b, later);
    if LosesMark(x, faults) {
      var y := cut.batches[b].items;
      var todo := PendingFrom(y, |y|);
      var now := ResumeLoop(cut, b, todo, later);
      ResumePasses(cut, b, todo, later);
      FinishRefunds(now, b);
      SameMoneyLeft(db, cut, now, b);
      assert forall i :: 0 <= i < |y| && y[i].status == Pending ==> i in todo;
      LostAgain(x, y, now.batches[b].items, faults, later);
      NonNegative(now.batches[b].items);
      FailedOnlyGrows(y, now.batches[b].items);
      forall i | 0 <= i < |x| && y[i].status == Failed ensures now.batches[b].items[i] == y[i] {
        assert ItemPassed(y[i], now.batches[b].items[i]);
      }
    }
  }

  lemma FirstRefund(db: Store, b: nat, faults: nat -> Mishap)
    requires HasBatch(db, b) && RefundsInRecovery(db, b, faults)
    ensures var cut := StoppedAfterRefund(db, b, faults);
            && HasBatch(cut, b) && |cut.batches[b].items| == |db.batches[b].items|
            && FailedTotal(cut.batches[b].items) > 0
            && forall i :: 0 <= i < |db.batches[b].items| && cut.batches[b].items[i].status == Failed ==>
                 cut.batches[b].items[i].releases == db.batches[b].items[i].releases + 1
  {
    hide Sum, ResumeLoop;
    var todo := PendingFrom(db.batches[b].items, |db.batches[b].items|);
    var now := ResumeLoop(db, b, todo, faults);
    ResumePasses(db, b, todo, faults);
    RefundSums(now, b);
    forall i | 0 <= i < |db.batches[b].items|
      ensures now.batches[b].items[i].releases == db.batches[b].items[i].releases
    {
      assert ItemPassed(db.batches[b].items[i], now.batches[b].items[i]);
    }
  }

  /** After both loops the frozen money is the other money, what failed since, and what is still pending. */
  lemma SameMoneyLeft(db: Store, cut: Store, now: Store, b: nat)
    requires HasBatch(db, b) && HasBatch(cut, b) && Passed(cut, now, b)
    requires ItemTotal(cut.batches[b].items) == ItemTotal(db.batches[b].items)
    requires FrozenOf(cut, b) + PaidTotal(cut.batches[b].items) + FailedTotal(cut.batches[b].items) ==
             FrozenOf(db, b) + PaidTotal(db.batches[b].items)
    ensures var x, y, z := db.batches[b].items, cut.batches[b].items, now.batches[b].items;
            FrozenOf(now, b) == FrozenOf(db, b) - FailedTotal(x) - PendingTotal(x)
                                + FailedTotal(z) + PendingTotal(z) - FailedTotal(y)
  {
    hide Sum;
    TotalSplits(db.batches[b].items);
    TotalSplits(now.batches[b].items);
  }

  lemma {:induction false} FailedOnlyGrows(x: seq<Item>, y: seq<Item>)
    requires |x| == |y| && forall i :: 0 <= i < |x| ==> ItemPassed(x[i], y[i])
    ensures FailedTotal(x) <= FailedTotal(y)
  {
    if x != [] {
      FailedOnlyGrows(x[..|x| - 1], y[..|y| - 1]);
      assert ItemPassed(x[|x| - 1], y[|y| - 1]);
    }
  }

  /** With the order written, the second recovery refunds nothing, whatever has failed since. */
  lemma NoRefundAfterOrder(db: Store, b: nat, faults: nat -> Mishap, later: nat -> Mishap)
    requires HasBatch(db, b) && RefundsInRecovery(db, b, faults) && db.users[db.batches[b].sender].hasAccount
    ensures var cut := StoppedAfterRefund(db, b, faults);
            && HasBatch(cut, b) && |cut.batches[b].items| == |db.batches[b].items|
            && var end := Resume(OrderWrite(cut, b), b, later);
               && HasBatch(end, b) && |end.batches[b].items| == |db.batches[b].items|
               && forall i :: 0 <= i < |db.batches[b].items| ==>
                    end.batches[b].items[i].releases == cut.batches[b].items[i].releases
  {
    hide Sum, ResumeLoop, ResumeFinish, StoppedAfterRefund, RefundsInRecovery;
    var cut := StoppedAfterRefund(db, b, faults);
    SecondRecovery(db, b, faults, cut, later);
    var ordered := OrderWrite(cut, b);
    RecoveryActsIff(ordered, b, later);
    var y := ordered.batches[b].items;
    var todo := PendingFrom(y, |y|);
    if todo != [] {
      var now := ResumeLoop(ordered, b, todo, later);
      ResumePasses(ordered, b, todo, later);
      FinishRefunds(now, b);
      forall i | 0 <= i < |y| ensures now.batches[b].items[i].releases == y[i].releases {
        assert ItemPassed(y[i], now.batches[b].items[i]);
      }
    }
  }

  // ---------------------------------------------------------------- a recovery while createBatch is at work

  /** The item after the rest of a createBatch call: only a pending item is decided, and `second` covers the failed. */
  ghost predicate WentOn(x: Item, y: Item, second: bool) {
    && y == x.(status := y.status, releases := x.releases + if second && y.status == Failed then 1 else 0)
    && (x.status != Pending ==> y.status == x.status)
  }

  ghost predicate WentOnOver(mid: Store, end: Store, b: nat, asked: int)
    requires HasBatch(mid, b)
  {
    && HasBatch(end, b) && |end.batches[b].items| == |mid.batches[b].items|
    && end.batches[b].status == mid.batches[b].status
    && end.batches[b].successCount == mid.batches[b].successCount
    && end.batches[b].failedCount == mid.batches[b].failedCount
    && var x, y := mid.batches[b].items, end.batches[b].items;
       var paid := PaidTotal(y) - PaidTotal(x);
       var second := asked > paid && FrozenOf(mid, b) >= asked;
       && FrozenOf(end, b) == FrozenOf(mid, b) - (if second then asked else paid)
       && forall i :: 0 <= i < |x| ==> WentOn(x[i], y[i], second)
  }

  /**
   A createBatch call that goes on over a batch another caller has completed or cancelled, whatever is still pending in
   it. It asks for what it saw fail and for everything from item `k` on that it does not pay itself. It gets that sum
   exactly when the frozen money it found covers all of it, and the counters stay those of the other caller.
  */
  lemma GoesOnOver(t: Tally, b: nat, k: nat, faults: nat -> Mishap)
    requires HasBatch(t.db, b) && k <= |t.db.batches[b].items| && t.db.batches[b].status != Processing
    requires t.db.users[t.db.batches[b].sender].hasAccount
    ensures WentOnOver(t.db, DriveOn(t, b, k, faults), b, t.badTotal + ItemTotal(t.db.batches[b].items[k..]))
  {
    hide Sum, LoopOn, FinaliseTx, CoverFailed;
    var x := t.db.batches[b].items;
    var u := LoopOn(t, b, k, |x|, faults);
    LoopOnPasses(t, b, k, |x|, faults);
    assert x[k..|x|] == x[k..];
    FinaliseState(u.db, b, u.badTotal, u.ok, u.bad);
    var y, z := u.db.batches[b].items, DriveOn(t, b, k, faults).batches[b].items;
    SumCong(y, z, AmountIf(Succeeded()), AmountIf(Succeeded()));
    forall i | 0 <= i < |x| ensures WentOn(x[i], z[i], u.badTotal > 0 && FrozenOf(u.db, b) >= u.badTotal) {
      assert ItemPassed(x[i], y[i]);
    }
  }

  function LostIn(later: nat -> Mishap): nat -> bool { (i: nat) => later(i) == MarkLost }

  /** One recovery of a processing batch, item by item and in money. */
  ghost predicate RecoveredFrom(db: Store, mid: Store, b: nat, later: nat -> Mishap)
    requires HasBatch(db, b)
  {
    && HasBatch(mid, b) && mid.users == db.users && mid.batches[b].sender == db.batches[b].sender
    && mid.batches[b].status == Completed && |mid.batches[b].items| == |db.batches[b].items|
    && var x, y := db.batches[b].items, mid.batches[b].items;
       var left := FrozenOf(db, b) + PaidTotal(x) - PaidTotal(y);
       var refunds := FailedTotal(y) > 0 && left >= FailedTotal(y);
       && ItemTotal(y) == ItemTotal(x) && PendingTotal(y) == LostMoney(x, LostIn(later))
       && FrozenOf(mid, b) == left - (if refunds then FailedTotal(y) else 0)
       && forall i :: 0 <= i < |x| ==> RecoveredItem(x[i], y[i], later(i), refunds)
  }

  ghost predicate RecoveredItem(x: Item, y: Item, mishap: Mishap, refunds: bool) {
    && y.amount == x.amount && (y.status == Pending <==> x.status == Pending && mishap == MarkLost)
    && y.releases == x.releases + if refunds && y.status == Failed then 1 else 0
  }

  /** The end of recovery over what its loop made of the items. */
  lemma FinishRecovers(db: Store, now: Store, b: nat, later: nat -> Mishap)
    requires HasBatch(db, b) && Passed(db, now, b) && now.users == db.users
    requires db.batches[b].status == Processing && !db.batches[b].refundOrder
    requires db.users[db.batches[b].sender].hasAccount
    requires forall i :: 0 <= i < |db.batches[b].items| ==>
               (now.batches[b].items[i].status == Pending <==>
                  db.batches[b].items[i].status == Pending && later(i) == MarkLost)
    ensures RecoveredFrom(db, ResumeFinish(now, b), b, later)
  {
    hide Sum, ResumeFinish, LostMoney;
    var x, y := db.batches[b].items, now.batches[b].items;
    FinishRefunds(now, b);
    FinishKeepsStatuses(now, b);
    var z := ResumeFinish(now, b).batches[b].items;
    SameSums(y, z);
    forall i | 0 <= i < |x| ensures ItemPassed(x[i], y[i]) && z[i].amount == x[i].amount {
    }
    LostMoneyStaysPending(x, z, LostIn(later));
  }

  lemma RecoveryOver(db: Store, b: nat, later: nat -> Mishap)
    requires HasBatch(db, b) && db.batches[b].status == Processing && !db.batches[b].refundOrder
    requires db.users[db.batches[b].sender].hasAccount && SomePending(db.batches[b].items)
    ensures RecoveredFrom(db, Resume(db, b, later), b, later)
  {
    hide Sum, ResumeLoop, ResumeFinish, RecoveredFrom, Passed;
    var todo := PendingFrom(db.batches[b].items, |db.batches[b].items|);
    RecoveryActsIff(db, b, later);
    ResumePasses(db, b, todo, later);
    FinishRecovers(db, ResumeLoop(db, b, todo, later), b, later);
  }

  /** What recovery makes of a batch that createBatch has worked on up to item `k`. */
  lemma RecoveryMidway(db: Store, b: nat, k: nat, faults: nat -> Mishap, later: nat -> Mishap)
    requires HasBatch(db, b) && k < |db.batches[b].items| && FreshlyFrozen(db, b) && !db.batches[b].refundOrder
    requires forall i: nat :: i < k ==> faults(i) != MarkLost
    ensures var t := ItemLoop(db, b, k, faults);
            var mid := Resume(t.db, b, later);
            && HasBatch(mid, b) && mid.users == db.users && mid.batches[b].sender == db.batches[b].sender
            && mid.batches[b].status == Completed && |mid.batches[b].items| == |db.batches[b].items|
            && FrozenOf(mid, b) == FrozenOf(db, b) - ItemTotal(db.batches[b].items)
                                   + LostMoney(t.db.batches[b].items, LostIn(later))
            && (forall i :: 0 <= i < |db.batches[b].items| ==>
                  var x, y := db.batches[b].items[i], mid.batches[b].items[i];
                  && y.amount == x.amount
                  && (y.status == Pending <==> i >= k && later(i) == MarkLost)
                  && y.releases ==
                     if y.status == Failed && FailedTotal(mid.batches[b].items) > 0 then 1 else 0)
  {
    hide Sum, ItemLoop, Resume, LostMoney;
    var t := ItemLoop(db, b, k, faults);
    LoopPasses(db, b, k, faults);
    LoopFromFresh(db, b, k, faults);
    var x := t.db.batches[b].items;
    assert x[k].status == Pending;
    RecoveryOver(t.db, b, later);
    var y := Resume(t.db, b, later).batches[b].items;
    TotalSplits(x);
    TotalSplits(y);
    NonNegative(y);
    forall i | 0 <= i < |x| ensures y[i].amount == db.batches[b].items[i].amount {
      PassedAmount(db, t.db, b, i);
      assert RecoveredItem(x[i], y[i], later(i), FailedTotal(y) > 0);
    }
  }

  /**
   Recovery runs while createBatch stands before item `k`, and completes the batch. createBatch then goes on with the
   counters it has. Let `rest` be the money of the items from `k` on, `lost` that of the items whose mark recovery
   loses, `paid` what createBatch still pays itself, and `other` the sender's frozen money that does not belong to the
   batch. createBatch asks for everything it did not pay, recovered items included, and gets it exactly when `other`
   and `lost` cover it together with `paid`; every item recovery refunded is then refunded twice. Otherwise these are
   refunded once.
  */
  lemma RecoverDuringCreateRefundsTwiceIff(db: Store, b: nat, k: nat, faults: nat -> Mishap, later: nat -> Mishap)
    requires HasBatch(db, b) && k < |db.batches[b].items| && FreshlyFrozen(db, b) && !db.batches[b].refundOrder
    requires forall i: nat :: i < k ==> faults(i) != MarkLost
    ensures var t := ItemLoop(db, b, k, faults);
            var mid := Resume(t.db, b, later);
            && HasBatch(mid, b) && |mid.batches[b].items| == |t.db.batches[b].items| == |db.batches[b].items|
            && var end := DriveOn(t.(db := mid), b, k, faults);
               && HasBatch(end, b) && end.batches[b].status == Completed
               && |end.batches[b].items| == |db.batches[b].items|
               && var x, y := mid.batches[b].items, end.batches[b].items;
                  var rest, paid := ItemTotal(db.batches[b].items[k..]), PaidTotal(y) - PaidTotal(x);
                  var other := FrozenOf(db, b) - ItemTotal(db.batches[b].items);
                  var lost := LostMoney(t.db.batches[b].items, LostIn(later));
                  var twice := t.badTotal + rest > paid && other + lost >= t.badTotal + rest;
                  && FrozenOf(end, b) == other + lost - (if twice then t.badTotal + rest else paid)
                  && (!LosesMark(t.db.batches[b].items, later) ==> lost == 0 && paid == 0)
                  && forall i :: 0 <= i < |y| && y[i].status == Failed ==>
                       y[i].releases == (if x[i].status == Failed && FailedTotal(x) > 0 then 1 else 0)
                                        + if twice then 1 else 0
  {
    hide Sum, ItemLoop, Resume, DriveOn;
    var t := ItemLoop(db, b, k, faults);
    var mid := Resume(t.db, b, later);
    RecoveryMidway(db, b, k, faults, later);
    var x := mid.batches[b].items;
    LoopFromFresh(db, b, k, faults);
    SameAmountsSameTotal(db.batches[b].items[k..], x[k..]);
    GoesOnOver(t.(db := mid), b, k, faults);
    var y := DriveOn(t.(db := mid), b, k, faults).batches[b].items;
    if !LosesMark(t.db.batches[b].items, later) {
      NothingLost(t.db.batches[b].items, LostIn(later));
      forall i | 0 <= i < |x| ensures x[i].status != Pending {
        assert t.db.batches[b].items[i].status == Pending <==> i >= k;
      }
      SumCong(x, y, AmountIf(Succeeded()), AmountIf(Succeeded()));
    }
  }

  // ---------------------------------------------------------------- without serialisable transactions

  /**
   The writes of an item's transaction that read the item as pending before another one decided it: the update of the
   item's status then matches no row, and its count is not looked at.
  */
  function StalePayment(db: Store, b: nat, i: nat): Store
    requires Addresses(db, b, i)
  {
    var batch := db.batches[b];
    var x := batch.items[i];
    if ReceiverFault(db.users, x.to).Some? || !db.users[batch.sender].hasAccount then db
    else
      var paid := PayOut(db.books, batch.sender, x.to, x.amount, BatchItem(b, i));
      if paid.None? then db else db.(books := paid.value)
  }

  /**
   If two overlapping transactions may both read one item as pending, the receiver is credited twice exactly when the
   sender's frozen money covers the amount twice.
  */
  lemma StaleReadCreditsTwiceIff(db: Store, b: nat, i: nat)
    requires I.CreditedOnce(db) && Addresses(db, b, i) && db.batches[b].items[i].status == Pending
    requires ReceiverFault(db.users, db.batches[b].items[i].to).None? && db.users[db.batches[b].sender].hasAccount
    requires FrozenOf(db, b) >= db.batches[b].items[i].amount
    ensures var paid := ProcessTx(db, b, i);
            && Addresses(paid, b, i)
            && I.Credits(StalePayment(paid, b, i), b, i) ==
               if FrozenOf(db, b) >= 2 * db.batches[b].items[i].amount then 2 else 1
  {
    hide Sum;
    var paid := ProcessTx(db, b, i);
    var s, x := db.batches[b].sender, db.batches[b].items[i];
    I.PayOutCredits(db.books, s, x.to, x.amount, b, i, b, i);
    if PayOut(paid.books, s, x.to, x.amount, BatchItem(b, i)).Some? {
      I.PayOutCredits(paid.books, s, x.to, x.amount, b, i, b, i);
    }
  }
}
