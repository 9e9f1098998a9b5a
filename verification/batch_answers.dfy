/**
 What the callers of the batch transfer service see, said over the requests and the columns of the tables: who may
 send and receive, what is stored, and where the money ends up.
*/
module BatchAnswers {
  import opened Prelude
  import opened Bank
  import opened Users
  import opened BatchModel
  import opened BatchSums
  import opened BatchLoops

  // ---------------------------------------------------------------- requests

  function Requested(): (f: ItemRequest -> int)
    ensures forall q :: f(q) == q.amount
  {
    (q: ItemRequest) => q.amount
  }

  function RequestTotal(rs: seq<ItemRequest>): int { Sum(rs, Requested()) }

  ghost predicate DistinctReceivers(rs: seq<ItemRequest>) {
    forall i, j :: 0 <= i < j < |rs| ==> rs[i].to != rs[j].to
  }

  ghost predicate NoneTo(rs: seq<ItemRequest>, sender: nat) {
    forall i :: 0 <= i < |rs| ==> rs[i].to != sender
  }

  ghost predicate AllPositive(rs: seq<ItemRequest>) {
    forall i :: 0 <= i < |rs| ==> rs[i].amount > 0
  }

  ghost predicate WellMade(rs: seq<ItemRequest>, sender: nat) {
    0 < |rs| <= 500 && DistinctReceivers(rs) && NoneTo(rs, sender) && AllPositive(rs)
  }

  ghost predicate MayReceive(users: seq<User>, to: nat) {
    && to < |users| && users[to].verified && users[to].hasAccount && users[to].accountActive
    && (users[to].status == Normal || users[to].status == ExpenseRestricted)
  }

  ghost predicate KeyKnown(batches: seq<Batch>, key: Option<string>) {
    key.Some? && exists b :: 0 <= b < |batches| && batches[b].key == key
  }

  // ---------------------------------------------------------------- refusals

  /** The refusals that need only the request, exactly when they are given. */
  ghost predicate RequestErrors(sender: nat, rs: seq<ItemRequest>, r: Result<nat, Error>) {
    && (r == Err(Empty) <==> |rs| == 0)
    && (r == Err(TooMany) <==> |rs| > 500)
    && (r == Err(Duplicated) <==> 0 < |rs| <= 500 && !DistinctReceivers(rs))
    && (r == Err(ToSelf) <==> 0 < |rs| <= 500 && DistinctReceivers(rs) && !NoneTo(rs, sender))
    && (r == Err(AmountInvalid) <==>
          0 < |rs| <= 500 && DistinctReceivers(rs) && NoneTo(rs, sender) && !AllPositive(rs))
  }

  /** The refusals for who the sender is, for a request that is well made. */
  ghost predicate SenderErrors(users: seq<User>, sender: nat, riskBlocked: bool, r: Result<nat, Error>) {
    && (r == Err(UserNotFound) <==> sender >= |users|)
    && (sender < |users| ==>
          var u := users[sender];
          var banned := u.status == FrozenUser || u.status == ExpenseRestricted;
          && (r == Err(RealNameRequired) <==> !u.verified)
          && (r == Err(Forbidden) <==> u.verified && banned)
          && (r == Err(HighRisk) <==> u.verified && !banned && u.highRisk)
          && (r == Err(RiskBlocked) <==> u.verified && !banned && !u.highRisk && riskBlocked))
  }

  ghost predicate MaySend(users: seq<User>, sender: nat, riskBlocked: bool) {
    && sender < |users| && users[sender].verified && !users[sender].highRisk && !riskBlocked
    && (users[sender].status == Normal || users[sender].status == IncomeRestricted)
  }

  /** The refusals of the freezing transaction, for a sender who may send. */
  ghost predicate FreezeErrors(db: Store, sender: nat, total: int, key: Option<string>, withinLimit: bool,
                               r: Result<nat, Error>)
    requires sender < |db.users| == |db.books.accounts|
  {
    var isNew := !KeyKnown(db.batches, key);
    var u := db.users[sender];
    && (r == Err(DailyLimit) <==> isNew && !withinLimit)
    && (r == Err(AccountNotFound) <==> isNew && withinLimit && !u.hasAccount)
    && (r == Err(AccountAbnormal) <==> isNew && withinLimit && u.hasAccount && !u.accountActive)
    && (r == Err(InsufficientBalance) <==>
          isNew && withinLimit && u.hasAccount && u.accountActive && db.books.accounts[sender].available < total)
    && (r == Err(KeyConflict) ==>
          exists b :: 0 <= b < |db.batches| && db.batches[b].key == key && db.batches[b].sender != sender)
    && (r.Ok? && !isNew ==>
          r.value < |db.batches| && db.batches[r.value].key == key && db.batches[r.value].sender == sender)
    && (r.Ok? && isNew ==> r.value == |db.batches|)
    && (r.Err? && !isNew ==> r == Err(KeyConflict))
  }

  /** Every refusal of createBatch, and nothing else, has the condition stated here; a refusal changes nothing. */
  ghost predicate Refuses(db: Store, sender: nat, rs: seq<ItemRequest>, key: Option<string>, riskBlocked: bool,
                          withinLimit: bool, r: Result<nat, Error>, db': Store)
    requires |db.users| == |db.books.accounts|
  {
    && (r.Err? ==> db' == db)
    && RequestErrors(sender, rs, r)
    && (WellMade(rs, sender) ==> SenderErrors(db.users, sender, riskBlocked, r))
    && (WellMade(rs, sender) && MaySend(db.users, sender, riskBlocked) ==>
          FreezeErrors(db, sender, RequestTotal(rs), key, withinLimit, r))
    && (r.Ok? ==> WellMade(rs, sender) && MaySend(db.users, sender, riskBlocked))
  }

  // ---------------------------------------------------------------- a batch that was created

  /** What the table holds of a request when createBatch is over. */
  ghost predicate StoredItem(users: seq<User>, q: ItemRequest, x: Item, mishap: Mishap) {
    && x.to == q.to && x.amount == q.amount
    && x.status == if mishap == MarkLost then ItemStatus.Pending
                   else if mishap == NoMishap && MayReceive(users, q.to) then ItemStatus.Success else ItemStatus.Failed
  }

  /**
   What an account has gained when createBatch is over: a receiver what he was sent, a sender the loss of all that.
  */
  ghost predicate Settled(was: Account, now: Account, sent: int, received: int) {
    && now.available == was.available - sent + received
    && now.frozen == was.frozen
    && now.total == was.total - sent + received
  }

  ghost predicate Arrived(x: Item, a: nat) { x.status == ItemStatus.Success && x.to == a }

  /** The new batch, its items and the freeze. */
  ghost predicate Stores(db: Store, sender: nat, rs: seq<ItemRequest>, key: Option<string>, now: int,
                         faults: nat -> Mishap, db': Store)
    requires sender < |db.books.accounts|
  {
    var b, rows := |db.batches|, |db.books.ledger|;
    var available, total := db.books.accounts[sender].available, RequestTotal(rs);
    && |db'.batches| == b + 1 && db'.batches[..b] == db.batches && db'.users == db.users
    && |db'.books.ledger| > rows && db'.books.ledger[..rows] == db.books.ledger
    && db'.books.ledger[rows] ==
       Row(sender, BatchFreeze(b), total, available, available - total, Direction.Credit, Available)
    && var x := db'.batches[b];
       && x.sender == sender && x.key == key && x.totalAmount == total && x.updatedAt == now
       && x.status == BatchStatus.Completed
       && |x.items| == |rs|
       && x.successCount == CountNat(x.items, Succeeded()) && x.successCount + x.failedCount == |rs|
       && (x.refundOrder <==> PaidTotal(x.items) < total)
       && forall i :: 0 <= i < |rs| ==> StoredItem(db.users, rs[i], x.items[i], faults(i))
  }

  /** The sender has lost exactly what arrived, every receiver has gained exactly his item's amount. */
  ghost predicate Pays(db: Store, sender: nat, rs: seq<ItemRequest>, db': Store)
    requires sender < |db.books.accounts|
    requires |db'.batches| == |db.batches| + 1 && |db'.batches[|db.batches|].items| == |rs|
  {
    var x := db'.batches[|db.batches|].items;
    && |db'.books.accounts| == |db.books.accounts|
    && Settled(db.books.accounts[sender], db'.books.accounts[sender], PaidTotal(x), 0)
    && (forall i :: 0 <= i < |rs| && x[i].status == ItemStatus.Success ==>
          rs[i].to < |db.books.accounts|
          && Settled(db.books.accounts[rs[i].to], db'.books.accounts[rs[i].to], 0, rs[i].amount))
    && forall a :: 0 <= a < |db.books.accounts| && a != sender && (forall i :: 0 <= i < |x| ==> !Arrived(x[i], a)) ==>
         db'.books.accounts[a] == db.books.accounts[a]
  }

  // ---------------------------------------------------------------- why refusals and batches are as said

  lemma RefusalConditions(db: Store, sender: nat, rs: seq<ItemRequest>, riskBlocked: bool)
    ensures CheckRequest(db.users, sender, rs, riskBlocked).None? <==>
            WellMade(rs, sender) && MaySend(db.users, sender, riskBlocked)
    ensures forall r: Result<nat, Error> :: r.Err? && CheckRequest(db.users, sender, rs, riskBlocked) == Some(r.error)
              ==> RequestErrors(sender, rs, r)
                  && (WellMade(rs, sender) ==> SenderErrors(db.users, sender, riskBlocked, r))
  {
  }

  lemma {:induction false} FreshTotal(rs: seq<ItemRequest>)
    requires AllPositive(rs)
    ensures ItemTotal(FreshItems(rs)) == RequestTotal(rs)
  {
    if rs != [] {
      FreshTotal(rs[..|rs| - 1]);
      assert FreshItems(rs)[..|rs| - 1] == FreshItems(rs[..|rs| - 1]);
    }
  }

  lemma FreezeConditions(db: Store, sender: nat, rs: seq<ItemRequest>, key: Option<string>, withinLimit: bool, now: int,
                         r: Result<nat, Error>)
    requires sender < |db.users| == |db.books.accounts| && AllPositive(rs) && ItemTotal(FreshItems(rs)) >= 0
    requires match SubmitTx(db, sender, FreshItems(rs), key, withinLimit, now)
             case Rejected(e) => r == Err(e)
             case Existing(b) => r == Ok(b)
             case Created(_, b) => r == Ok(b)
    ensures FreezeErrors(db, sender, RequestTotal(rs), key, withinLimit, r)
    ensures r.Err? ==> r.error !in {Empty, TooMany, Duplicated, ToSelf, AmountInvalid, UserNotFound, RealNameRequired,
                                    Forbidden, HighRisk, RiskBlocked}
  {
    hide Sum, FreshItems, KeyKnown, FindKey;
    FreshTotal(rs);
    KnownIff(db.batches, key);
  }

  // ---------------------------------------------------------------- the loop over a fresh batch

  /** A batch that is fresh, covered by the sender's frozen money, and sends to other people, each once. */
  ghost predicate Payable(db: Store, b: nat)
    requires HasBatch(db, b)
  {
    var x := db.batches[b];
    && x.status == Processing && db.users[x.sender].hasAccount && FrozenOf(db, b) >= ItemTotal(x.items)
    && (forall i :: 0 <= i < |x.items| ==> x.items[i].status == ItemStatus.Pending && x.items[i].to != x.sender)
    && forall i, j :: 0 <= i < j < |x.items| ==> x.items[i].to != x.items[j].to
  }

  ghost function Decision(users: seq<User>, x: Item, mishap: Mishap): ItemStatus {
    if mishap == MarkLost then ItemStatus.Pending
    else if mishap == NoMishap && MayReceive(users, x.to) then ItemStatus.Success else ItemStatus.Failed
  }

  /** Only the accounts of the sender and of one receiver have changed, and two ledger rows say how. */
  ghost predicate Sent(db: Store, db': Store, s: nat, to: nat, amount: int, ref: Reference)
    requires s < |db.books.accounts| && to < |db.books.accounts|
  {
    var x, y := db.books.accounts, db'.books.accounts;
    && |y| == |x|
    && db'.books == db.books.(accounts := y, ledger := db.books.ledger + [
         Row(s, ref, amount, x[s].frozen, x[s].frozen - amount, Direction.Credit, Frozen),
         Row(to, ref, amount, x[to].available, x[to].available + amount, Direction.Debit, Available)])
    && y[s] == x[s].(frozen := x[s].frozen - amount, total := x[s].total - amount)
    && y[to] == x[to].(available := x[to].available + amount, total := x[to].total + amount)
    && forall a :: 0 <= a < |x| && a != s && a != to ==> y[a] == x[a]
  }

  lemma OneDecision(db: Store, b: nat, i: nat, mishap: Mishap)
    requires Addresses(db, b, i) && db.batches[b].items[i].status == ItemStatus.Pending
    requires db.users[db.batches[b].sender].hasAccount && FrozenOf(db, b) >= db.batches[b].items[i].amount
    requires db.batches[b].items[i].to != db.batches[b].sender
    ensures var s, x := db.batches[b].sender, db.batches[b].items[i];
            var db' := ProcessItem(db, b, i, mishap);
            && db'.users == db.users && db.books.ledger <= db'.books.ledger
            && |db'.batches| == |db.batches| && db'.batches == db.batches[b := db'.batches[b]]
            && db'.batches[b] == db.batches[b].(items := db.batches[b].items[i :=
                                                           x.(status := Decision(db.users, x, mishap))])
            && if Decision(db.users, x, mishap) == ItemStatus.Success
               then Sent(db, db', s, x.to, x.amount, BatchItem(b, i))
               else db'.books == db.books
  {
    var x := db.batches[b].items[i];
    assert mishap == MarkLost ==> db.batches[b] == db.batches[b].(items := db.batches[b].items[i := x]);
  }

  /** Where the accounts stand after `upTo` items, whose states are `y`. */
  ghost predicate PaidSoFar(db: Store, db': Store, s: nat, y: seq<Item>, upTo: nat)
    requires s < |db.books.accounts| && upTo <= |y|
  {
    var x, x' := db.books.accounts, db'.books.accounts;
    && |x'| == |x|
    && x'[s] == x[s].(frozen := x[s].frozen - PaidTotal(y), total := x[s].total - PaidTotal(y))
    && (forall i :: 0 <= i < upTo && y[i].status == ItemStatus.Success ==>
          y[i].to < |x| && Settled(x[y[i].to], x'[y[i].to], 0, y[i].amount))
    && forall a :: 0 <= a < |x| && a != s && (forall i :: 0 <= i < upTo ==> !Arrived(y[i], a)) ==> x'[a] == x[a]
  }

  ghost predicate DecidedSoFar(users: seq<User>, x: seq<Item>, y: seq<Item>, upTo: nat, faults: nat -> Mishap) {
    && |y| == |x|
    && forall i :: 0 <= i < |x| ==>
         y[i] == if i < upTo then x[i].(status := Decision(users, x[i], faults(i))) else x[i]
  }

  ghost predicate Midway(db: Store, db': Store, b: nat, upTo: nat, faults: nat -> Mishap)
    requires HasBatch(db, b) && upTo <= |db.batches[b].items|
  {
    && HasBatch(db', b) && db'.users == db.users && db.books.ledger <= db'.books.ledger
    && |db'.batches| == |db.batches| && db'.batches == db.batches[b := db'.batches[b]]
    && db'.batches[b] == db.batches[b].(items := db'.batches[b].items)
    && DecidedSoFar(db.users, db.batches[b].items, db'.batches[b].items, upTo, faults)
    && PaidSoFar(db, db', db.batches[b].sender, db'.batches[b].items, upTo)
  }

  /** What is pending or failed has not been paid. */
  lemma StillCovered(db: Store, db': Store, b: nat, i: nat)
    requires HasBatch(db, b) && Payable(db, b) && Passed(db, db', b) && i < |db.batches[b].items|
    requires db'.batches[b].items[i].status == ItemStatus.Pending
    ensures FrozenOf(db', b) >= db'.batches[b].items[i].amount
  {
    hide Sum;
    var x, y := db.batches[b].items, db'.batches[b].items;
    NoneOf(x, AmountIf(Succeeded()));
    TotalSplits(y);
    NonNegative(y);
    SumNonNegative(y, AmountIf(IsPending()));
    assert AmountIf(IsPending())(y[i]) == y[i].amount;
  }

  lemma PaysNext(db: Store, t: Store, b: nat, i: nat, faults: nat -> Mishap)
    requires HasBatch(db, b) && Payable(db, b) && i < |db.batches[b].items|
    requires Midway(db, t, b, i, faults) && FrozenOf(t, b) >= t.batches[b].items[i].amount
    ensures Midway(db, ProcessItem(t, b, i, faults(i)), b, i + 1, faults)
  {
    hide Sum, ProcessItem;
    var s, x, y := db.batches[b].sender, db.batches[b].items, t.batches[b].items;
    OneDecision(t, b, i, faults(i));
    var t' := ProcessItem(t, b, i, faults(i));
    var z := t'.batches[b].items;
    OnePaid(y, i, z[i]);
    forall a | 0 <= a < |db.books.accounts| && a != s && (forall k :: 0 <= k < i + 1 ==> !Arrived(z[k], a))
      ensures t'.books.accounts[a] == db.books.accounts[a]
    {
      assert !Arrived(z[i], a);
      forall k | 0 <= k < i ensures !Arrived(y[k], a) { assert z[k] == y[k]; }
    }
    forall k | 0 <= k < i + 1 && z[k].status == ItemStatus.Success
      ensures z[k].to < |db.books.accounts|
              && Settled(db.books.accounts[z[k].to], t'.books.accounts[z[k].to], 0, z[k].amount)
    {
      if k == i {
        assert forall j :: 0 <= j < i ==> !Arrived(y[j], x[i].to);
      }
    }
  }

  lemma PaysOneMore(db: Store, t: Store, b: nat, i: nat, faults: nat -> Mishap)
    requires HasBatch(db, b) && Payable(db, b) && i < |db.batches[b].items|
    requires Midway(db, t, b, i, faults) && Passed(db, t, b)
    ensures Midway(db, ProcessItem(t, b, i, faults(i)), b, i + 1, faults)
  {
    hide PaidSoFar, ProcessItem, Sum;
    StartsPending(db, b, i);
    StillCovered(db, t, b, i);
    PaysNext(db, t, b, i, faults);
  }

  lemma {:induction false} LoopPays(db: Store, b: nat, upTo: nat, faults: nat -> Mishap)
    requires HasBatch(db, b) && Payable(db, b) && upTo <= |db.batches[b].items|
    ensures Midway(db, ItemLoop(db, b, upTo, faults).db, b, upTo, faults)
  {
    hide Sum, ProcessItem, Reported, Payable, Midway, Passed, LoopCounts, LoopReaches;
    if upTo == 0 {
      StartsMidway(db, b, faults);
    } else {
      LoopPays(db, b, upTo - 1, faults);
      LoopPasses(db, b, upTo - 1, faults);
      PaysOneMore(db, ItemLoop(db, b, upTo - 1, faults).db, b, upTo - 1, faults);
    }
  }

  lemma StartsPending(db: Store, b: nat, i: nat)
    requires HasBatch(db, b) && Payable(db, b) && i < |db.batches[b].items|
    ensures db.batches[b].items[i].status == ItemStatus.Pending
  {
  }

  lemma StartsMidway(db: Store, b: nat, faults: nat -> Mishap)
    requires HasBatch(db, b) && Payable(db, b)
    ensures Midway(db, db, b, 0, faults)
  {
    NoneOf(db.batches[b].items, AmountIf(Succeeded()));
  }

  // ---------------------------------------------------------------- the finaliser, and the whole call

  /** The finaliser returns to the sender what did not arrive. */
  lemma FinaliseReturns(db: Store, t: Tally, b: nat, faults: nat -> Mishap)
    requires HasBatch(db, b) && Payable(db, b) && Midway(db, t.db, b, |db.batches[b].items|, faults)
    requires t.badTotal == ItemTotal(db.batches[b].items) - PaidTotal(t.db.batches[b].items) >= 0
    ensures var end := FinaliseTx(t.db, b, t.badTotal, t.ok, t.bad);
            var s, x, y := db.batches[b].sender, db.batches[b].items, t.db.batches[b].items;
            && |end.batches| == |db.batches| && end.batches == db.batches[b := end.batches[b]] && end.users == db.users
            && db.books.ledger <= end.books.ledger && |end.books.accounts| == |db.books.accounts|
            && end.batches[b].(items := y) ==
               db.batches[b].(items := y, refundOrder := db.batches[b].refundOrder || t.badTotal > 0,
                              status := BatchStatus.Completed, successCount := t.ok, failedCount := t.bad)
            && |end.batches[b].items| == |y| == |x|
            && (forall i :: 0 <= i < |y| ==>
                end.batches[b].items[i] == y[i].(releases := end.batches[b].items[i].releases))
            && end.books.accounts == t.db.books.accounts[s := end.books.accounts[s]]
            && end.books.accounts[s] == Account(db.books.accounts[s].available + t.badTotal,
                                                db.books.accounts[s].frozen - ItemTotal(x),
                                                db.books.accounts[s].total - PaidTotal(y))
  {
    hide Sum, Decision;
  }

  /** From a fresh batch to the end of createBatch. */
  ghost predicate Done(db: Store, end: Store, b: nat, faults: nat -> Mishap)
    requires HasBatch(db, b)
  {
    var s, x := db.batches[b].sender, db.batches[b].items;
    && |end.batches| == |db.batches| && end.batches == db.batches[b := end.batches[b]] && end.users == db.users
    && db.books.ledger <= end.books.ledger && |end.books.accounts| == |db.books.accounts|
    && var y, was, now := end.batches[b].items, db.books.accounts, end.books.accounts;
       && |y| == |x|
       && end.batches[b] == db.batches[b].(items := y,
                                           refundOrder := db.batches[b].refundOrder || PaidTotal(y) < ItemTotal(x),
                                           status := BatchStatus.Completed,
                                           successCount := CountNat(y, Succeeded()),
                                           failedCount := end.batches[b].failedCount)
       && CountNat(y, Succeeded()) + end.batches[b].failedCount == |x|
       && (forall i :: 0 <= i < |x| ==>
             y[i] == x[i].(status := Decision(db.users, x[i], faults(i)), releases := y[i].releases))
       && now[s] == Account(was[s].available + ItemTotal(x) - PaidTotal(y), was[s].frozen - ItemTotal(x),
                            was[s].total - PaidTotal(y))
       && (forall i :: 0 <= i < |x| && y[i].status == ItemStatus.Success ==>
             x[i].to < |was| && Settled(was[x[i].to], now[x[i].to], 0, x[i].amount))
       && forall a :: 0 <= a < |was| && a != s && (forall i :: 0 <= i < |y| ==> !Arrived(y[i], a)) ==> now[a] == was[a]
  }

  lemma LoopTally(db: Store, b: nat, faults: nat -> Mishap)
    requires HasBatch(db, b) && Payable(db, b)
    ensures var n := |db.batches[b].items|;
            var t := ItemLoop(db, b, n, faults);
            var y := t.db.batches[b].items;
            && Midway(db, t.db, b, n, faults)
            && t.badTotal == ItemTotal(db.batches[b].items) - PaidTotal(y) >= 0
            && t.ok == CountNat(y, Succeeded()) && t.ok + t.bad == n
  {
    hide Sum, ItemLoop;
    var x := db.batches[b].items;
    LoopPays(db, b, |x|, faults);
    LoopPasses(db, b, |x|, faults);
    assert x[..|x|] == x;
    NoneOf(x, AmountIf(Succeeded()));
    NoneOf(x, OneIf(Succeeded()));
    TotalSplits(ItemLoop(db, b, |x|, faults).db.batches[b].items);
    NonNegative(ItemLoop(db, b, |x|, faults).db.batches[b].items);
  }

  lemma DriveDoes(db: Store, b: nat, faults: nat -> Mishap)
    requires HasBatch(db, b) && Payable(db, b)
    ensures Done(db, Drive(db, b, faults), b, faults)
  {
    hide Sum, ItemLoop, FinaliseTx, CountNat;
    var x := db.batches[b].items;
    var t := ItemLoop(db, b, |x|, faults);
    LoopTally(db, b, faults);
    FinaliseReturns(db, t, b, faults);
    var y, z := t.db.batches[b].items, Drive(db, b, faults).batches[b].items;
    SumCong(y, z, AmountIf(Succeeded()), AmountIf(Succeeded()));
    SumCong(y, z, OneIf(Succeeded()), OneIf(Succeeded()));
    forall a | 0 <= a < |db.books.accounts| && a != db.batches[b].sender
               && (forall i :: 0 <= i < |z| ==> !Arrived(z[i], a))
      ensures Drive(db, b, faults).books.accounts[a] == db.books.accounts[a]
    {
      forall i | 0 <= i < |y| ensures !Arrived(y[i], a) { assert !Arrived(z[i], a); }
    }
  }

  /** A created batch holds exactly what was requested, and the money ends up as its items say. */
  lemma CreatedAnswers(db: Store, sender: nat, rs: seq<ItemRequest>, key: Option<string>, withinLimit: bool, now: int,
                       faults: nat -> Mishap)
    requires |db.users| == |db.books.accounts| && sender < |db.users| && WellMade(rs, sender)
    requires ItemTotal(FreshItems(rs)) >= 0 && db.books.accounts[sender].frozen >= 0
    requires SubmitTx(db, sender, FreshItems(rs), key, withinLimit, now).Created?
    ensures var r := SubmitTx(db, sender, FreshItems(rs), key, withinLimit, now);
            && r.batch == |db.batches| && HasBatch(r.db, r.batch)
            && var end := Drive(r.db, r.batch, faults);
               Stores(db, sender, rs, key, now, faults, end) && Pays(db, sender, rs, end)
  {
    hide Sum, Drive, CountNat;
    FreshTotal(rs);
    var r := SubmitTx(db, sender, FreshItems(rs), key, withinLimit, now);
    DriveDoes(r.db, r.batch, faults);
  }

  /** The answers to a request that passes its checks. */
  lemma SubmitAnswers(db: Store, sender: nat, rs: seq<ItemRequest>, key: Option<string>, withinLimit: bool, now: int,
                      faults: nat -> Mishap, r: Result<nat, Error>, end: Store)
    requires |db.users| == |db.books.accounts| && sender < |db.users| && WellMade(rs, sender)
    requires ItemTotal(FreshItems(rs)) >= 0
    requires match SubmitTx(db, sender, FreshItems(rs), key, withinLimit, now)
             case Rejected(e) => r == Err(e) && end == db
             case Existing(b) => r == Ok(b)
             case Created(db', b) => r == Ok(b) && HasBatch(db', b) && end == Drive(db', b, faults)
    ensures FreezeErrors(db, sender, RequestTotal(rs), key, withinLimit, r) && (r.Err? ==> end == db)
    ensures r.Err? ==> r.error !in {Empty, TooMany, Duplicated, ToSelf, AmountInvalid, UserNotFound, RealNameRequired,
                                    Forbidden, HighRisk, RiskBlocked}
    ensures r.Ok? && !KeyKnown(db.batches, key) && db.books.accounts[sender].frozen >= 0 ==>
              Stores(db, sender, rs, key, now, faults, end) && Pays(db, sender, rs, end)
  {
    hide Drive, Stores, Pays, FreshItems, FreezeErrors, KeyKnown, FindKey, Freeze, Sum;
    FreezeConditions(db, sender, rs, key, withinLimit, now, r);
    KnownIff(db.batches, key);
    if SubmitTx(db, sender, FreshItems(rs), key, withinLimit, now).Created? && db.books.accounts[sender].frozen >= 0 {
      CreatedAnswers(db, sender, rs, key, withinLimit, now, faults);
    }
  }

  lemma KnownIff(batches: seq<Batch>, key: Option<string>)
    ensures FindKey(batches, key).Some? <==> KeyKnown(batches, key)
  {
  }

  /** Every answer of createBatch. */
  lemma CreateAnswers(db: Store, sender: nat, rs: seq<ItemRequest>, key: Option<string>, riskBlocked: bool,
                      withinLimit: bool, now: int, faults: nat -> Mishap, r: Result<nat, Error>, end: Store)
    requires |db.users| == |db.books.accounts| && ItemTotal(FreshItems(rs)) >= 0
    requires var refusal := CheckRequest(db.users, sender, rs, riskBlocked);
             if refusal.Some? then r == Err(refusal.value) && end == db
             else
               match SubmitTx(db, sender, FreshItems(rs), key, withinLimit, now)
               case Rejected(e) => r == Err(e) && end == db
               case Existing(b) => r == Ok(b)
               case Created(db', b) => r == Ok(b) && HasBatch(db', b) && end == Drive(db', b, faults)
    ensures Refuses(db, sender, rs, key, riskBlocked, withinLimit, r, end)
    ensures r.Ok? && !KeyKnown(db.batches, key) && db.books.accounts[sender].frozen >= 0 ==>
              Stores(db, sender, rs, key, now, faults, end) && Pays(db, sender, rs, end)
  {
    hide CheckRequest, SubmitTx, Drive, Stores, Pays, FreshItems, FreezeErrors, RequestTotal, DistinctReceivers, NoneTo,
         AllPositive, KeyKnown;
    RefusalConditions(db, sender, rs, riskBlocked);
    if CheckRequest(db.users, sender, rs, riskBlocked).None? {
      SubmitAnswers(db, sender, rs, key, withinLimit, now, faults, r, end);
    }
  }

  // ---------------------------------------------------------------- cancellation

  ghost predicate CancelErrors(batches: seq<Batch>, b: nat, user: nat, r: Result<(), Error>) {
    && (r == Err(BatchNotFound) <==> b >= |batches|)
    && (r == Err(NotOwner) <==> b < |batches| && batches[b].sender != user)
    && (r == Err(NotCancellable) <==>
          b < |batches| && batches[b].sender == user && batches[b].status != BatchStatus.Processing)
    && (r.Err? ==> r.error in {BatchNotFound, NotOwner, NotCancellable})
  }

  /**
   The batch is cancelled, what was pending has failed, and its money has returned if the frozen balance covers it.
  */
  ghost predicate Cancels(db: Store, b: nat, db': Store)
    requires HasBatch(db, b)
  {
    var x, s := db.batches[b], db.batches[b].sender;
    var was, owed := db.books.accounts[s], PendingTotal(x.items);
    var returned := owed > 0 && db.users[s].hasAccount && was.frozen >= owed;
    && |db'.batches| == |db.batches| && db'.batches == db.batches[b := db'.batches[b]] && db'.users == db.users
    && var y := db'.batches[b];
       && |y.items| == |x.items|
       && (forall i :: 0 <= i < |x.items| ==>
             && y.items[i].to == x.items[i].to && y.items[i].amount == x.items[i].amount
             && y.items[i].status == if x.items[i].status == ItemStatus.Pending then ItemStatus.Failed
                                     else x.items[i].status)
       && y == x.(items := y.items, status := BatchStatus.Cancelled, successCount := CountNat(y.items, Succeeded()),
                  failedCount := CountNat(y.items, IsFailed()))
       && db'.books == db.books.(
          accounts := if returned
                      then db.books.accounts[s := Account(was.available + owed, was.frozen - owed, was.total)]
                      else db.books.accounts,
          ledger := if returned
                    then db.books.ledger + [Row(s, BatchCancel(b), owed, was.available, was.available + owed,
                                                Direction.Debit, Available)]
                    else db.books.ledger)
  }

  lemma CancelAnswers(db: Store, b: nat, user: nat)
    requires b < |db.batches| ==> HasBatch(db, b)
    ensures CancelErrors(db.batches, b, user, if CancelTx(db, b, user).Ok? then Ok(())
                         else Err(CancelTx(db, b, user).error))
    ensures CancelTx(db, b, user).Ok? ==> Cancels(db, b, CancelTx(db, b, user).value)
  {
    hide Sum, CountNat;
  }
}
