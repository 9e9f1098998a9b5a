/** What a pass over a batch's items does to its sums and to the sender's frozen money, whatever the items' state. */
module BatchLoops {
  import opened Prelude
  import opened BatchModel
  import opened BatchSums

  function PaidTotal(items: seq<Item>): int { Sum(items, AmountIf(Succeeded())) }

  function FrozenOf(db: Store, b: nat): int
    requires HasBatch(db, b)
  {
    db.books.accounts[db.batches[b].sender].frozen
  }

  /** Every item is paid, failed or pending. */
  lemma {:induction false} TotalSplits(items: seq<Item>)
    ensures ItemTotal(items) == PaidTotal(items) + FailedTotal(items) + PendingTotal(items)
  {
    if items != [] {
      TotalSplits(items[..|items| - 1]);
    }
  }

  ghost predicate ItemPassed(x: Item, y: Item) {
    y == x.(status := y.status) && (x.status != Pending ==> y == x)
  }

  /** A pass changes only pending items, and takes exactly what it pays out from the sender's frozen money. */
  ghost predicate Passed(db: Store, db': Store, b: nat)
    requires HasBatch(db, b)
  {
    && HasBatch(db', b) && OnlyBatch(db, db', b)
    && var x, y := db.batches[b], db'.batches[b];
       && y == x.(items := y.items)
       && (forall i :: 0 <= i < |x.items| ==> ItemPassed(x.items[i], y.items[i]))
       && ItemTotal(y.items) == ItemTotal(x.items)
       && FrozenOf(db', b) + PaidTotal(y.items) == FrozenOf(db, b) + PaidTotal(x.items)
  }

  lemma NothingPassed(db: Store, b: nat)
    requires HasBatch(db, b)
    ensures Passed(db, db, b)
  {
  }

  lemma PassedTwice(db: Store, db': Store, db'': Store, b: nat)
    requires HasBatch(db, b) && Passed(db, db', b) && Passed(db', db'', b)
    ensures Passed(db, db'', b)
  {
    hide Sum;
    forall i | 0 <= i < |db.batches[b].items| ensures ItemPassed(db.batches[b].items[i], db''.batches[b].items[i]) {
      assert ItemPassed(db.batches[b].items[i], db'.batches[b].items[i]);
      assert ItemPassed(db'.batches[b].items[i], db''.batches[b].items[i]);
    }
  }

  lemma OnePaid(items: seq<Item>, i: nat, x: Item)
    requires i < |items| && x == items[i].(status := x.status)
    ensures ItemTotal(items[i := x]) == ItemTotal(items)
    ensures PaidTotal(items[i := x]) == PaidTotal(items) - AmountIf(Succeeded())(items[i]) + AmountIf(Succeeded())(x)
    ensures CountNat(items[i := x], Succeeded()) ==
            CountNat(items, Succeeded()) - OneIf(Succeeded())(items[i]) + OneIf(Succeeded())(x)
  {
    SumUpdate(items, i, x, AmountIf(Anything()));
    SumUpdate(items, i, x, AmountIf(Succeeded()));
    SumUpdate(items, i, x, OneIf(Succeeded()));
  }

  lemma MarkPasses(db: Store, b: nat, i: nat)
    requires Addresses(db, b, i)
    ensures var db' := MarkFailed(db, b, i);
            && Passed(db, db', b)
            && PaidTotal(db'.batches[b].items) == PaidTotal(db.batches[b].items)
            && CountNat(db'.batches[b].items, Succeeded()) == CountNat(db.batches[b].items, Succeeded())
  {
    hide Sum;
    var x := db.batches[b].items[i];
    if x.status == Pending { OnePaid(db.batches[b].items, i, x.(status := Failed)); }
  }

  lemma PaymentPasses(db: Store, b: nat, i: nat)
    requires Addresses(db, b, i) && Reported(db, b, i, NoMishap)
    ensures var db' := ProcessTx(db, b, i);
            && Passed(db, db', b)
            && PaidTotal(db'.batches[b].items) == PaidTotal(db.batches[b].items) + db.batches[b].items[i].amount
            && CountNat(db'.batches[b].items, Succeeded()) == CountNat(db.batches[b].items, Succeeded()) + 1
  {
    hide Sum;
    var x := db.batches[b].items[i];
    OnePaid(db.batches[b].items, i, x.(status := Success));
  }

  /** One item: it is paid exactly when that is reported, and it stays pending only when its mark is lost. */
  lemma ProcessPasses(db: Store, b: nat, i: nat, mishap: Mishap)
    requires Addresses(db, b, i)
    ensures var db' := ProcessItem(db, b, i, mishap);
            var x, y := db.batches[b].items, db'.batches[b].items;
            && Passed(db, db', b)
            && y == x[i := y[i]]
            && PaidTotal(y) == PaidTotal(x) + (if Reported(db, b, i, mishap) then x[i].amount else 0)
            && CountNat(y, Succeeded()) == CountNat(x, Succeeded()) + (if Reported(db, b, i, mishap) then 1 else 0)
            && (y[i].status == Pending <==> x[i].status == Pending && mishap == MarkLost)
  {
    hide Sum, Passed;
    var db' := ProcessItem(db, b, i, mishap);
    assert db' == db || db' == MarkFailed(db, b, i) || (mishap == NoMishap && Reported(db, b, i, NoMishap));
    if Reported(db, b, i, mishap) {
      PaymentPasses(db, b, i);
    } else if db' == db {
      NothingPassed(db, b);
    } else {
      MarkPasses(db, b, i);
    }
  }

  ghost predicate LoopCounts(db: Store, b: nat, upTo: nat, t: Tally)
    requires HasBatch(db, b) && HasBatch(t.db, b) && upTo <= |db.batches[b].items|
  {
    var x, y := db.batches[b].items, t.db.batches[b].items;
    && t.badTotal == ItemTotal(x[..upTo]) - (PaidTotal(y) - PaidTotal(x))
    && t.ok == CountNat(y, Succeeded()) - CountNat(x, Succeeded())
    && t.ok + t.bad == upTo
  }

  ghost predicate LoopReaches(db: Store, b: nat, upTo: nat, faults: nat -> Mishap, db': Store)
    requires HasBatch(db, b) && HasBatch(db', b) && |db'.batches[b].items| == |db.batches[b].items|
  {
    forall i :: 0 <= i < |db.batches[b].items| ==>
      (if i < upTo
       then db'.batches[b].items[i].status == Pending <==>
           db.batches[b].items[i].status == Pending && faults(i) == MarkLost
       else db'.batches[b].items[i] == db.batches[b].items[i])
  }

  /** The tally after one more item. */
  function OneMore(t: Tally, b: nat, i: nat, mishap: Mishap, amount: nat): (r: Tally)
    requires Addresses(t.db, b, i)
    ensures HasBatch(r.db, b) && |r.db.batches[b].items| == |t.db.batches[b].items|
  {
    hide Sum, ProcessTx, Reported;
    var db' := ProcessItem(t.db, b, i, mishap);
    if Reported(t.db, b, i, mishap) then Tally(db', t.ok + 1, t.bad, t.badTotal)
    else Tally(db', t.ok, t.bad + 1, t.badTotal + amount)
  }

  lemma OneMoreCounts(db: Store, b: nat, i: nat, t: Tally, mishap: Mishap)
    requires HasBatch(db, b) && i < |db.batches[b].items| && Passed(db, t.db, b) && LoopCounts(db, b, i, t)
    ensures var next := OneMore(t, b, i, mishap, db.batches[b].items[i].amount);
            HasBatch(next.db, b) && LoopCounts(db, b, i + 1, next)
  {
    hide Sum, ProcessItem, Reported;
    var items := db.batches[b].items;
    ProcessPasses(t.db, b, i, mishap);
    assert ItemPassed(items[i], t.db.batches[b].items[i]);
    assert items[..i + 1] == items[..i] + [items[i]];
    SumAppend(items[..i], items[i], AmountIf(Anything()));
  }

  lemma OneMoreReaches(db: Store, b: nat, i: nat, faults: nat -> Mishap, t: Tally)
    requires HasBatch(db, b) && i < |db.batches[b].items| && Passed(db, t.db, b) && LoopReaches(db, b, i, faults, t.db)
    ensures var db' := ProcessItem(t.db, b, i, faults(i));
            Passed(db, db', b) && LoopReaches(db, b, i + 1, faults, db')
  {
    hide Sum, ProcessItem;
    ProcessPasses(t.db, b, i, faults(i));
    PassedTwice(db, t.db, ProcessItem(t.db, b, i, faults(i)), b);
  }

  /** The loop counts as failed what it does not pay itself, in number and in amount. */
  lemma {:induction false} LoopPasses(db: Store, b: nat, upTo: nat, faults: nat -> Mishap)
    requires HasBatch(db, b) && upTo <= |db.batches[b].items|
    ensures var t := ItemLoop(db, b, upTo, faults);
            Passed(db, t.db, b) && LoopCounts(db, b, upTo, t) && LoopReaches(db, b, upTo, faults, t.db)
  {
    hide Sum, ProcessItem, Reported, Passed, LoopCounts, LoopReaches;
    if upTo == 0 {
      LoopStarts(db, b, faults);
    } else {
      LoopPasses(db, b, upTo - 1, faults);
      var t := ItemLoop(db, b, upTo - 1, faults);
      OneMoreCounts(db, b, upTo - 1, t, faults(upTo - 1));
      OneMoreReaches(db, b, upTo - 1, faults, t);
    }
  }

  lemma LoopStarts(db: Store, b: nat, faults: nat -> Mishap)
    requires HasBatch(db, b)
    ensures Passed(db, db, b) && LoopCounts(db, b, 0, Tally(db, 0, 0, 0)) && LoopReaches(db, b, 0, faults, db)
  {
    NothingPassed(db, b);
    NoneOf(db.batches[b].items[..0], AmountIf(Anything()));
  }

  /** Recovery's loop over the pending items. */
  lemma {:induction false} ResumePasses(db: Store, b: nat, todo: seq<nat>, faults: nat -> Mishap)
    requires HasBatch(db, b) && forall k :: 0 <= k < |todo| ==> todo[k] < |db.batches[b].items|
    ensures var r := ResumeLoop(db, b, todo, faults);
            && Passed(db, r, b)
            && forall i :: 0 <= i < |db.batches[b].items| ==>
                 (r.batches[b].items[i].status == Pending <==>
                    db.batches[b].items[i].status == Pending && (i in todo ==> faults(i) == MarkLost))
    decreases |todo|
  {
    hide Sum, ProcessItem;
    if todo == [] {
      NothingPassed(db, b);
    } else {
      var db' := ProcessItem(db, b, todo[0], faults(todo[0]));
      ProcessPasses(db, b, todo[0], faults(todo[0]));
      ResumePasses(db', b, todo[1..], faults);
      PassedTwice(db, db', ResumeLoop(db', b, todo[1..], faults), b);
      assert forall i :: i in todo <==> i == todo[0] || i in todo[1..];
    }
  }

  // ---------------------------------------------------------------- a loop that is entered half way

  /** The items `from..upTo`, by a caller that already holds counters. */
  function LoopOn(t: Tally, b: nat, from: nat, upTo: nat, faults: nat -> Mishap): (r: Tally)
    requires HasBatch(t.db, b) && from <= upTo <= |t.db.batches[b].items|
    ensures HasBatch(r.db, b) && |r.db.batches[b].items| == |t.db.batches[b].items|
    decreases upTo - from
  {
    if upTo == from then t
    else
      var i := upTo - 1;
      OneMore(LoopOn(t, b, from, i, faults), b, i, faults(i), t.db.batches[b].items[i].amount)
  }

  /** Entering the loop half way with the counters of its first half is the whole loop. */
  lemma {:induction false} LoopInTwoParts(db: Store, b: nat, k: nat, upTo: nat, faults: nat -> Mishap)
    requires HasBatch(db, b) && k <= upTo <= |db.batches[b].items|
    ensures LoopOn(ItemLoop(db, b, k, faults), b, k, upTo, faults) == ItemLoop(db, b, upTo, faults)
    decreases upTo - k
  {
    hide Passed, LoopCounts, LoopReaches, Sum, ProcessItem, Reported;
    if upTo > k {
      LoopInTwoParts(db, b, k, upTo - 1, faults);
      LoopKeepsAmount(db, b, k, faults, upTo - 1);
    }
  }

  lemma LoopKeepsAmount(db: Store, b: nat, k: nat, faults: nat -> Mishap, i: nat)
    requires HasBatch(db, b) && k <= |db.batches[b].items| && i < |db.batches[b].items|
    ensures ItemLoop(db, b, k, faults).db.batches[b].items[i].amount == db.batches[b].items[i].amount
  {
    hide Sum, ItemLoop;
    LoopPasses(db, b, k, faults);
    assert ItemPassed(db.batches[b].items[i], ItemLoop(db, b, k, faults).db.batches[b].items[i]);
  }

  /** Over decided items the loop changes nothing and counts every item as failed. */
  lemma {:induction false} LoopOverDecided(t: Tally, b: nat, from: nat, upTo: nat, faults: nat -> Mishap)
    requires HasBatch(t.db, b) && from <= upTo <= |t.db.batches[b].items|
    requires forall i :: from <= i < upTo ==> t.db.batches[b].items[i].status != Pending
    ensures LoopOn(t, b, from, upTo, faults) ==
            Tally(t.db, t.ok, t.bad + upTo - from, t.badTotal + ItemTotal(t.db.batches[b].items[from..upTo]))
    decreases upTo - from
  {
    hide Sum;
    var items := t.db.batches[b].items;
    if upTo > from {
      LoopOverDecided(t, b, from, upTo - 1, faults);
      ProcessDecided(t.db, b, upTo - 1, faults(upTo - 1));
      assert items[from..upTo] == items[from..upTo - 1] + [items[upTo - 1]];
      SumAppend(items[from..upTo - 1], items[upTo - 1], AmountIf(Anything()));
    } else {
      NoneOf(items[from..upTo], AmountIf(Anything()));
    }
  }

  /** What part of a loop does, from any counters on: it counts as failed what it does not pay itself. */
  lemma {:induction false} LoopOnPasses(t: Tally, b: nat, from: nat, upTo: nat, faults: nat -> Mishap)
    requires HasBatch(t.db, b) && from <= upTo <= |t.db.batches[b].items|
    ensures var r := LoopOn(t, b, from, upTo, faults);
            var x, y := t.db.batches[b].items, r.db.batches[b].items;
            && Passed(t.db, r.db, b)
            && r.badTotal == t.badTotal + ItemTotal(x[from..upTo]) - (PaidTotal(y) - PaidTotal(x))
    decreases upTo - from
  {
    hide Sum, ProcessItem, Reported, Passed;
    var items := t.db.batches[b].items;
    if upTo == from {
      NothingPassed(t.db, b);
      NoneOf(items[from..upTo], AmountIf(Anything()));
    } else {
      var i := upTo - 1;
      var front := LoopOn(t, b, from, i, faults);
      LoopOnPasses(t, b, from, i, faults);
      ProcessPasses(front.db, b, i, faults(i));
      PassedTwice(t.db, front.db, ProcessItem(front.db, b, i, faults(i)), b);
      PassedAmount(t.db, front.db, b, i);
      assert items[from..upTo] == items[from..i] + [items[i]];
      SumAppend(items[from..i], items[i], AmountIf(Anything()));
    }
  }

  lemma PassedAmount(db: Store, db': Store, b: nat, i: nat)
    requires HasBatch(db, b) && i < |db.batches[b].items| && Passed(db, db', b)
    ensures |db'.batches[b].items| == |db.batches[b].items|
    ensures db'.batches[b].items[i].amount == db.batches[b].items[i].amount
  {
    assert ItemPassed(db.batches[b].items[i], db'.batches[b].items[i]);
  }

  // ---------------------------------------------------------------- money whose failure marks are lost

  /** The money of the pending items whose marks are lost. */
  ghost function LostMoney(items: seq<Item>, lost: nat -> bool): int {
    if items == [] then 0
    else
      var n := |items| - 1;
      LostMoney(items[..n], lost) + if items[n].status == Pending && lost(n) then items[n].amount else 0
  }

  /** If exactly these items stay pending, it is the money that stays pending. */
  lemma {:induction false} LostMoneyStaysPending(x: seq<Item>, y: seq<Item>, lost: nat -> bool)
    requires |y| == |x| && forall i :: 0 <= i < |x| ==> y[i].amount == x[i].amount
    requires forall i :: 0 <= i < |x| ==> (y[i].status == Pending <==> x[i].status == Pending && lost(i))
    ensures PendingTotal(y) == LostMoney(x, lost)
  {
    if x != [] {
      LostMoneyStaysPending(x[..|x| - 1], y[..|x| - 1], lost);
    }
  }

  lemma {:induction false} NothingLost(items: seq<Item>, lost: nat -> bool)
    requires forall i :: 0 <= i < |items| && items[i].status == Pending ==> !lost(i)
    ensures LostMoney(items, lost) == 0
  {
    if items != [] {
      NothingLost(items[..|items| - 1], lost);
    }
  }
}
