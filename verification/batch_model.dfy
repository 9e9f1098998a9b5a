/**
 The batch transfer service, one function per atomic database write: the freezing transaction,
 one transaction per item, the finalising transaction, the separate writes of crash recovery,
 and cancellation.
*/
module BatchModel {
  import opened Prelude
  import opened Bank
  import opened Users

  const MAX_ITEMS: nat := 500

  // ---------------------------------------------------------------- tables

  datatype ItemStatus = Pending | Success | Failed

  /** `releases` is a history count: how many refunds have covered this item. It is no column of the table. */
  datatype Item = Item(to: nat, amount: nat, status: ItemStatus, releases: nat)

  datatype BatchStatus = Processing | Completed | Cancelled

  /** `refundOrder` says that an order with the batch's refund remark exists; `updatedAt` is when processing began. */
  datatype Batch = Batch(
    sender: nat, key: Option<string>, items: seq<Item>, totalAmount: nat, status: BatchStatus,
    successCount: nat, failedCount: nat, refundOrder: bool, updatedAt: int)

  /** Users and accounts share an index; `hasAccount` says whether the account row exists. */
  datatype Store = Store(users: seq<User>, books: Books, batches: seq<Batch>)

  datatype ItemRequest = ItemRequest(to: nat, amount: int)

  datatype Error =
    | Empty | TooMany | Duplicated | ToSelf | AmountInvalid
    | UserNotFound | RealNameRequired | Forbidden | HighRisk | RiskBlocked
    | KeyConflict | DailyLimit | AccountNotFound | AccountAbnormal | InsufficientBalance
    | BatchNotFound | NotOwner | NotCancellable

  // ---------------------------------------------------------------- sums over items

  function AmountIf(p: Item -> bool): Item -> int {
    (x: Item) => if p(x) then x.amount else 0
  }

  function OneIf(p: Item -> bool): Item -> int {
    (x: Item) => if p(x) then 1 else 0
  }

  function Succeeded(): Item -> bool { (x: Item) => x.status == Success }
  function IsFailed(): Item -> bool { (x: Item) => x.status == Failed }
  function IsPending(): Item -> bool { (x: Item) => x.status == Pending }
  function Anything(): Item -> bool { (x: Item) => true }

  /** The item's money is still in the sender's frozen balance. */
  function HeldItem(): Item -> bool {
    (x: Item) => x.status == Pending || (x.status == Failed && x.releases == 0)
  }

  function CreditedTo(a: nat): Item -> bool {
    (x: Item) => x.status == Success && x.to == a
  }

  function ItemTotal(items: seq<Item>): int { Sum(items, AmountIf(Anything())) }
  function FailedTotal(items: seq<Item>): int { Sum(items, AmountIf(IsFailed())) }
  function Held(items: seq<Item>): int { Sum(items, AmountIf(HeldItem())) }
  function CreditTo(items: seq<Item>, a: nat): int { Sum(items, AmountIf(CreditedTo(a))) }
  function ReturnedOf(): Item -> int { (x: Item) => x.releases * x.amount }
  function Returned(items: seq<Item>): int { Sum(items, ReturnedOf()) }

  function CountNat(items: seq<Item>, p: Item -> bool): (n: nat)
    ensures n == Sum(items, OneIf(p))
    ensures n <= |items|
  {
    if items == [] then 0
    else CountNat(items[..|items| - 1], p) + if p(items[|items| - 1]) then 1 else 0
  }

  // ---------------------------------------------------------------- createBatch: checks and freeze

  function Fresh(r: ItemRequest): Item {
    Item(r.to, if r.amount < 0 then 0 else r.amount, Pending, 0)
  }

  function FreshItems(rs: seq<ItemRequest>): (items: seq<Item>)
    ensures |items| == |rs|
    ensures forall i :: 0 <= i < |rs| ==> items[i] == Fresh(rs[i])
  {
    if rs == [] then [] else FreshItems(rs[..|rs| - 1]) + [Fresh(rs[|rs| - 1])]
  }

  /** The checks before the lock, in order; `None` lets the request through. */
  function CheckRequest(users: seq<User>, sender: nat, rs: seq<ItemRequest>, riskBlocked: bool): Option<Error> {
    if |rs| == 0 then Some(Empty)
    else if |rs| > MAX_ITEMS then Some(TooMany)
    else if exists i, j :: 0 <= i < j < |rs| && rs[i].to == rs[j].to then Some(Duplicated)
    else if exists i :: 0 <= i < |rs| && rs[i].to == sender then Some(ToSelf)
    else if exists i :: 0 <= i < |rs| && rs[i].amount <= 0 then Some(AmountInvalid)
    else if sender >= |users| then Some(UserNotFound)
    else if !users[sender].verified then Some(RealNameRequired)
    else if users[sender].status == FrozenUser || users[sender].status == ExpenseRestricted then Some(Forbidden)
    else if users[sender].highRisk then Some(HighRisk)
    else if riskBlocked then Some(RiskBlocked)
    else None
  }

  /** The index of the batch with this idempotency key, if any. */
  function FindKey(batches: seq<Batch>, key: Option<string>): (r: Option<nat>)
    ensures r.Some? ==> r.value < |batches| && key.Some? && batches[r.value].key == key
    ensures r.None? && key.Some? ==> forall b :: 0 <= b < |batches| ==> batches[b].key != key
  {
    if key.None? || batches == [] then None
    else if batches[|batches| - 1].key == key then Some(|batches| - 1)
    else FindKey(batches[..|batches| - 1], key)
  }

  datatype Submission = Created(db: Store, batch: nat) | Existing(batch: nat) | Rejected(error: Error)

  /** The first transaction. A known key of the same sender returns the stored batch and changes nothing. */
  function SubmitTx(db: Store, sender: nat, items: seq<Item>, key: Option<string>, withinLimit: bool,
                    now: int): Submission
    requires |db.users| == |db.books.accounts| && sender < |db.users|
    requires ItemTotal(items) >= 0
  {
    var found := FindKey(db.batches, key);
    if found.Some? then
      if db.batches[found.value].sender != sender then Rejected(KeyConflict) else Existing(found.value)
    else if !withinLimit then Rejected(DailyLimit)
    else if !db.users[sender].hasAccount then Rejected(AccountNotFound)
    else if !db.users[sender].accountActive then Rejected(AccountAbnormal)
    else
      var b := |db.batches|;
      var frozen := Freeze(db.books, sender, ItemTotal(items), BatchFreeze(b));
      if frozen.None? then Rejected(InsufficientBalance)
      else Created(db.(books := frozen.value,
                       batches := db.batches + [Batch(sender, key, items, ItemTotal(items), Processing, 0, 0, false,
                                                      now)]), b)
  }

  // ---------------------------------------------------------------- one item

  datatype Fault = UserMissing | NotVerified | Restricted | ReceiverAccount

  /** The receiver checks of one item, in order. */
  function ReceiverFault(users: seq<User>, to: nat): Option<Fault> {
    if to >= |users| then Some(UserMissing)
    else if !users[to].verified then Some(NotVerified)
    else if users[to].status == FrozenUser || users[to].status == IncomeRestricted then Some(Restricted)
    else if !users[to].hasAccount || !users[to].accountActive then Some(ReceiverAccount)
    else None
  }

  ghost predicate Addresses(db: Store, b: nat, i: nat) {
    && |db.users| == |db.books.accounts|
    && b < |db.batches|
    && db.batches[b].sender < |db.users|
    && i < |db.batches[b].items|
  }

  function SetBatch(db: Store, b: nat, batch: Batch): Store
    requires b < |db.batches|
  {
    db.(batches := db.batches[b := batch])
  }

  function SetItem(db: Store, b: nat, i: nat, x: Item): Store
    requires b < |db.batches| && i < |db.batches[b].items|
  {
    SetBatch(db, b, db.batches[b].(items := db.batches[b].items[i := x]))
  }

  /** Marks a pending item failed; any other item is left alone. */
  function MarkFailed(db: Store, b: nat, i: nat): Store
    requires b < |db.batches| && i < |db.batches[b].items|
  {
    var x := db.batches[b].items[i];
    if x.status == Pending then SetItem(db, b, i, x.(status := Failed)) else db
  }

  /** One item's transaction, when nothing in it throws. */
  function ProcessTx(db: Store, b: nat, i: nat): Store
    requires Addresses(db, b, i)
  {
    var sender := db.batches[b].sender;
    var x := db.batches[b].items[i];
    if x.status != Pending then db
    else if ReceiverFault(db.users, x.to).Some? then MarkFailed(db, b, i)
    else if !db.users[sender].hasAccount then MarkFailed(db, b, i)
    else
      var paid := PayOut(db.books, sender, x.to, x.amount, BatchItem(b, i));
      if paid.None? then MarkFailed(db, b, i)
      else SetItem(db.(books := paid.value), b, i, x.(status := Success))
  }

  /** What may go wrong in processing an item: its transaction throws, or the mark that follows is lost as well. */
  datatype Mishap = NoMishap | Throws | MarkLost

  /**
   Processing one item: an exception rolls its transaction back and marks the item in a second one; when that fails
   too the item stays as it was.
  */
  function ProcessItem(db: Store, b: nat, i: nat, mishap: Mishap): Store
    requires Addresses(db, b, i)
  {
    match mishap
    case NoMishap => ProcessTx(db, b, i)
    case Throws => MarkFailed(db, b, i)
    case MarkLost => db
  }

  /** What processItem reports: only a call that itself pays the item out reports success. */
  predicate Reported(db: Store, b: nat, i: nat, mishap: Mishap)
    requires Addresses(db, b, i)
  {
    db.batches[b].items[i].status == Pending && ProcessItem(db, b, i, mishap).batches[b].items[i].status == Success
  }

  // ---------------------------------------------------------------- finalising, recovery, cancellation

  function Cover(x: Item): Item {
    if x.status == Failed then x.(releases := x.releases + 1) else x
  }

  /** History: a refund covers every failed item of its batch. */
  function CoverFailed(items: seq<Item>): (r: seq<Item>)
    ensures |r| == |items|
    ensures forall i :: 0 <= i < |items| ==> r[i] == Cover(items[i])
  {
    if items == [] then [] else CoverFailed(items[..|items| - 1]) + [Cover(items[|items| - 1])]
  }

  ghost predicate HasBatch(db: Store, b: nat) {
    && |db.users| == |db.books.accounts|
    && b < |db.batches|
    && db.batches[b].sender < |db.users|
  }

  predicate Refundable(db: Store, b: nat, amount: int)
    requires HasBatch(db, b)
  {
    db.users[db.batches[b].sender].hasAccount && CanRelease(db.books, db.batches[b].sender, amount)
  }

  function Complete(batch: Batch, ok: nat, bad: nat): Batch {
    if batch.status == Processing then batch.(status := Completed, successCount := ok, failedCount := bad) else batch
  }

  /** The finalising transaction of createBatch, run with the counters of that call. */
  function FinaliseTx(db: Store, b: nat, badTotal: int, ok: nat, bad: nat): Store
    requires HasBatch(db, b)
  {
    var batch := db.batches[b];
    if Refundable(db, b, badTotal) then
      SetBatch(db.(books := Release(db.books, batch.sender, badTotal, BatchRefund(b))), b,
               Complete(batch.(items := CoverFailed(batch.items), refundOrder := true), ok, bad))
    else SetBatch(db, b, Complete(batch, ok, bad))
  }

  /** Recovery, first write: the refund's account update, outside any transaction. */
  function RefundWrite(db: Store, b: nat, badTotal: int): Store
    requires HasBatch(db, b)
  {
    var batch := db.batches[b];
    if Refundable(db, b, badTotal) then
      SetBatch(db.(books := db.books.(accounts := Unfreeze(db.books.accounts, batch.sender, badTotal))), b,
               batch.(items := CoverFailed(batch.items)))
    else db
  }

  /** Recovery, second write: the refund order that marks the batch as refunded. */
  function OrderWrite(db: Store, b: nat): Store
    requires HasBatch(db, b)
  {
    SetBatch(db, b, db.batches[b].(refundOrder := true))
  }

  /** Recovery, third write: the refund's ledger row, with the balances read after the first write. */
  function LedgerWrite(db: Store, b: nat, row: Row): Store {
    db.(books := db.books.(ledger := db.books.ledger + [row]))
  }

  /** Recovery, last write: PROCESSING -> COMPLETED. */
  function CompleteWrite(db: Store, b: nat, ok: nat, bad: nat): Store
    requires HasBatch(db, b)
  {
    SetBatch(db, b, Complete(db.batches[b], ok, bad))
  }

  function CancelItem(x: Item, refunded: bool): Item {
    if x.status == Pending then x.(status := Failed, releases := if refunded then x.releases + 1 else x.releases) else x
  }

  function CancelItems(items: seq<Item>, refunded: bool): (r: seq<Item>)
    ensures |r| == |items|
    ensures forall i :: 0 <= i < |items| ==> r[i] == CancelItem(items[i], refunded)
  {
    if items == [] then [] else CancelItems(items[..|items| - 1], refunded) + [CancelItem(items[|items| - 1], refunded)]
  }

  function PendingTotal(items: seq<Item>): int { Sum(items, AmountIf(IsPending())) }

  /** The cancelling transaction: pending items fail and their money returns to the sender. */
  function CancelTx(db: Store, b: nat, user: nat): Result<Store, Error>
    requires b < |db.batches| ==> HasBatch(db, b)
  {
    if b >= |db.batches| then Err(BatchNotFound)
    else if db.batches[b].sender != user then Err(NotOwner)
    else if db.batches[b].status != Processing then Err(NotCancellable)
    else
      var batch := db.batches[b];
      var refund := PendingTotal(batch.items);
      var refunded := Refundable(db, b, refund);
      var items := CancelItems(batch.items, refunded);
      var books := if refunded then Release(db.books, batch.sender, refund, BatchCancel(b)) else db.books;
      Ok(SetBatch(db.(books := books), b,
                  batch.(items := items, status := Cancelled, successCount := CountNat(items, Succeeded()),
                         failedCount := CountNat(items, IsFailed()))))
  }

  // ---------------------------------------------------------------- the item loop of one createBatch call

  datatype Tally = Tally(db: Store, ok: nat, bad: nat, badTotal: int)

  /** Items `0..upTo`, one transaction each, with the counters the call keeps in memory. */
  function ItemLoop(db: Store, b: nat, upTo: nat, faults: nat -> Mishap): (t: Tally)
    requires HasBatch(db, b) && upTo <= |db.batches[b].items|
    ensures HasBatch(t.db, b) && |t.db.batches[b].items| == |db.batches[b].items|
    ensures t.db.users == db.users && |t.db.batches| == |db.batches|
  {
    if upTo == 0 then Tally(db, 0, 0, 0)
    else
      var t := ItemLoop(db, b, upTo - 1, faults);
      var i := upTo - 1;
      var db' := ProcessItem(t.db, b, i, faults(i));
      if Reported(t.db, b, i, faults(i)) then Tally(db', t.ok + 1, t.bad, t.badTotal)
      else Tally(db', t.ok, t.bad + 1, t.badTotal + db.batches[b].items[i].amount)
  }

  /** The second half of createBatch: every item, then the finaliser. */
  function Drive(db: Store, b: nat, faults: nat -> Mishap): Store
    requires HasBatch(db, b)
  {
    var t := ItemLoop(db, b, |db.batches[b].items|, faults);
    FinaliseTx(t.db, b, t.badTotal, t.ok, t.bad)
  }

  // ---------------------------------------------------------------- recovery

  function PendingFrom(items: seq<Item>, upTo: nat): (todo: seq<nat>)
    requires upTo <= |items|
    ensures forall k :: 0 <= k < |todo| ==> todo[k] < upTo && items[todo[k]].status == Pending
    ensures forall k, l :: 0 <= k < l < |todo| ==> todo[k] < todo[l]
    ensures forall i :: 0 <= i < upTo && items[i].status == Pending ==> i in todo
  {
    if upTo == 0 then []
    else if items[upTo - 1].status == Pending then PendingFrom(items, upTo - 1) + [upTo - 1]
    else PendingFrom(items, upTo - 1)
  }

  /** The items of `todo` in turn, one transaction each. */
  function ResumeLoop(db: Store, b: nat, todo: seq<nat>, faults: nat -> Mishap): (r: Store)
    requires HasBatch(db, b) && forall k :: 0 <= k < |todo| ==> todo[k] < |db.batches[b].items|
    ensures HasBatch(r, b) && |r.batches| == |db.batches| && r.users == db.users
    ensures |r.batches[b].items| == |db.batches[b].items|
    decreases |todo|
  {
    if todo == [] then db
    else ResumeLoop(ProcessItem(db, b, todo[0], faults(todo[0])), b, todo[1..], faults)
  }

  /** Recovery's end: counts read back from the items, a refund unless its order exists, and completion. */
  function ResumeFinish(db: Store, b: nat): Store
    requires HasBatch(db, b)
  {
    var items := db.batches[b].items;
    var ok, bad, badTotal := CountNat(items, Succeeded()), CountNat(items, IsFailed()), FailedTotal(items);
    if badTotal > 0 && !db.batches[b].refundOrder && Refundable(db, b, badTotal) then
      var refunded := RefundWrite(db, b, badTotal);
      var row := RefundRow(refunded.books.accounts, db.batches[b].sender, badTotal, BatchRefund(b));
      CompleteWrite(LedgerWrite(OrderWrite(refunded, b), b, row), b, ok, bad)
    else CompleteWrite(db, b, ok, bad)
  }

  /** One uninterrupted recovery; a batch that is decided or has nothing pending is not touched. */
  function Resume(db: Store, b: nat, faults: nat -> Mishap): Store
    requires b < |db.batches| ==> HasBatch(db, b)
  {
    if b >= |db.batches| || db.batches[b].status != Processing then db
    else
      var todo := PendingFrom(db.batches[b].items, |db.batches[b].items|);
      if todo == [] then db else ResumeFinish(ResumeLoop(db, b, todo, faults), b)
  }

  const RECOVERY_DELAY_MS: int := 5 * 60 * 1000

  /** The recovery job's query: PROCESSING for longer than the delay, with an item still pending. */
  predicate Stuck(x: Batch, now: int) {
    x.status == Processing && x.updatedAt < now - RECOVERY_DELAY_MS && PendingFrom(x.items, |x.items|) != []
  }

  function StuckBatches(batches: seq<Batch>, upTo: nat, now: int): (r: seq<nat>)
    requires upTo <= |batches|
    ensures forall k :: 0 <= k < |r| ==> r[k] < upTo
    ensures forall b :: b in r <==> 0 <= b < upTo && Stuck(batches[b], now)
    ensures forall k, l :: 0 <= k < l < |r| ==> r[k] < r[l]
  {
    if upTo == 0 then []
    else if Stuck(batches[upTo - 1], now) then StuckBatches(batches, upTo - 1, now) + [upTo - 1]
    else StuckBatches(batches, upTo - 1, now)
  }

  ghost predicate HasBatches(db: Store) {
    |db.users| == |db.books.accounts| && forall b :: 0 <= b < |db.batches| ==> db.batches[b].sender < |db.users|
  }

  /** What a write to one batch leaves alone. */
  ghost predicate OnlyBatch(db: Store, db': Store, b: nat) {
    && b < |db.batches| == |db'.batches|
    && db'.users == db.users && |db'.books.accounts| == |db.books.accounts|
    && db'.batches == db.batches[b := db'.batches[b]]
    && db'.batches[b].sender == db.batches[b].sender
    && |db'.batches[b].items| == |db.batches[b].items|
  }

  /** A decided item is left alone, and not reported as a success. */
  lemma ProcessDecided(db: Store, b: nat, i: nat, mishap: Mishap)
    requires Addresses(db, b, i) && db.batches[b].items[i].status != Pending
    ensures ProcessItem(db, b, i, mishap) == db && !Reported(db, b, i, mishap)
  {
  }

  lemma {:induction false} ResumeLoopOnly(db: Store, b: nat, todo: seq<nat>, faults: nat -> Mishap)
    requires HasBatch(db, b) && forall k :: 0 <= k < |todo| ==> todo[k] < |db.batches[b].items|
    ensures OnlyBatch(db, ResumeLoop(db, b, todo, faults), b)
    ensures ResumeLoop(db, b, todo, faults).batches[b].status == db.batches[b].status
    decreases |todo|
  {
    if todo != [] {
      var db' := ProcessItem(db, b, todo[0], faults(todo[0]));
      ResumeLoopOnly(db', b, todo[1..], faults);
    }
  }

  lemma ResumeOnly(db: Store, b: nat, faults: nat -> Mishap)
    requires HasBatch(db, b)
    ensures OnlyBatch(db, Resume(db, b, faults), b)
    ensures db.batches[b].status == Processing && PendingFrom(db.batches[b].items, |db.batches[b].items|) != [] ==>
              Resume(db, b, faults).batches[b].status == Completed
  {
    var todo := PendingFrom(db.batches[b].items, |db.batches[b].items|);
    if db.batches[b].status == Processing && todo != [] {
      ResumeLoopOnly(db, b, todo, faults);
    }
  }

  /** One sweep of the recovery job over the batches its query found. */
  function Sweep(db: Store, stuck: seq<nat>, faults: nat -> nat -> Mishap): (r: Store)
    requires HasBatches(db) && forall k :: 0 <= k < |stuck| ==> stuck[k] < |db.batches|
    ensures HasBatches(r) && |r.batches| == |db.batches| && r.users == db.users
    decreases |stuck|
  {
    if stuck == [] then db
    else
      var earlier := Sweep(db, stuck[..|stuck| - 1], faults);
      var b := stuck[|stuck| - 1];
      ResumeOnly(earlier, b, faults(b));
      Resume(earlier, b, faults(b))
  }

  lemma {:induction false} SweepOnly(db: Store, stuck: seq<nat>, faults: nat -> nat -> Mishap)
    requires HasBatches(db) && forall k :: 0 <= k < |stuck| ==> stuck[k] < |db.batches|
    requires forall k, l :: 0 <= k < l < |stuck| ==> stuck[k] < stuck[l]
    requires forall k :: 0 <= k < |stuck| ==>
               db.batches[stuck[k]].status == Processing
               && PendingFrom(db.batches[stuck[k]].items, |db.batches[stuck[k]].items|) != []
    ensures forall b :: 0 <= b < |db.batches| ==>
              if b in stuck then Sweep(db, stuck, faults).batches[b].status == Completed
              else Sweep(db, stuck, faults).batches[b] == db.batches[b]
    decreases |stuck|
  {
    if stuck != [] {
      var rest := stuck[..|stuck| - 1];
      var b := stuck[|stuck| - 1];
      SweepOnly(db, rest, faults);
      assert b !in rest;
      assert Sweep(db, rest, faults).batches[b] == db.batches[b];
      ResumeOnly(Sweep(db, rest, faults), b, faults(b));
      assert forall c :: c in stuck <==> c in rest || c == b;
    }
  }

  function FirstOf(stuck: seq<nat>, reached: nat): (r: seq<nat>)
    ensures r <= stuck && (reached >= |stuck| ==> r == stuck)
  {
    if reached <= |stuck| then stuck[..reached] else stuck
  }

  /** Processing for more than five minutes, with an item that is still pending. */
  ghost predicate Overdue(x: Batch, now: int) {
    && x.status == Processing && x.updatedAt + 300000 < now
    && exists i :: 0 <= i < |x.items| && x.items[i].status == Pending
  }

  lemma StuckIffOverdue(x: Batch, now: int)
    ensures Stuck(x, now) <==> Overdue(x, now)
  {
    var todo := PendingFrom(x.items, |x.items|);
    if todo != [] {
      assert x.items[todo[0]].status == Pending;
    }
  }

  /** A sweep completes overdue batches only; without an error that ends it early it completes every one. */
  ghost predicate Swept(x: seq<Batch>, y: seq<Batch>, now: int, uninterrupted: bool) {
    && |y| == |x|
    && (forall b :: 0 <= b < |x| && !Overdue(x[b], now) ==> y[b] == x[b])
    && (forall b :: 0 <= b < |x| ==> y[b] == x[b] || y[b].status == Completed)
    && (uninterrupted ==> forall b :: 0 <= b < |x| && Overdue(x[b], now) ==> y[b].status == Completed)
  }

  /**
   The recovery job completes exactly the overdue batches it reaches, and touches no other; when nothing ends it early
   it reaches them all.
  */
  lemma SweepCompletesStuckBatches(db: Store, now: int, faults: nat -> nat -> Mishap, reached: nat)
    requires HasBatches(db)
    ensures var stuck := StuckBatches(db.batches, |db.batches|, now);
            var db' := Sweep(db, FirstOf(stuck, reached), faults);
            && (forall b :: 0 <= b < |db.batches| ==> (b in stuck <==> Overdue(db.batches[b], now)))
            && Swept(db.batches, db'.batches, now, reached >= |stuck|)
            && (forall b :: 0 <= b < |db.batches| ==>
                  if b in FirstOf(stuck, reached) then db'.batches[b].status == Completed
                  else db'.batches[b] == db.batches[b])
  {
    var all := StuckBatches(db.batches, |db.batches|, now);
    var stuck := FirstOf(all, reached);
    forall b | 0 <= b < |db.batches| ensures b in all <==> Overdue(db.batches[b], now) {
      StuckIffOverdue(db.batches[b], now);
    }
    assert forall k :: 0 <= k < |stuck| ==> stuck[k] in all;
    forall k | 0 <= k < |stuck| ensures Stuck(db.batches[stuck[k]], now) {
      assert stuck[k] in stuck;
    }
    SweepOnly(db, stuck, faults);
  }

  lemma {:induction false} FewAreStuck(batches: seq<Batch>, upTo: nat, now: int)
    requires upTo <= |batches|
    ensures |StuckBatches(batches, upTo, now)| <= upTo
  {
    if upTo > 0 {
      FewAreStuck(batches, upTo - 1, now);
    }
  }
}
