/**
 What every interleaving of batch transfer writes keeps, with no assumption about locks: createBatch,
 recovery and cancellation of the same batch may overlap, stop anywhere, and carry any counters.
*/
module BatchInterleaving {
  import opened Prelude
  import opened Bank
  import opened Users
  import opened BatchModel

  /** One atomic write by any caller; amounts and counters are whatever that caller holds in memory. */
  datatype Write =
    | Submit(sender: nat, items: seq<Item>, key: Option<string>, withinLimit: bool, now: int)
    | ProcessOne(batch: nat, item: nat, mishap: Mishap)
    | Finalise(batch: nat, badTotal: nat, ok: nat, bad: nat)
    | Refund(batch: nat, badTotal: nat)
    | RefundOrder(batch: nat)
    | RefundLedger(batch: nat, row: Row)
    | CompleteBatch(batch: nat, ok: nat, bad: nat)
    | Cancel(batch: nat, user: nat)
    | ChangeUser(id: nat, profile: User)

  ghost predicate IsFresh(items: seq<Item>) {
    forall i :: 0 <= i < |items| ==> items[i].status == Pending && items[i].releases == 0
  }

  /** A write that addresses existing rows. */
  ghost predicate Addressed(db: Store, w: Write) {
    match w
    case Submit(sender, items, _, _, _) => sender < |db.users| && IsFresh(items)
    case ProcessOne(b, i, _) => b < |db.batches| && i < |db.batches[b].items|
    case Finalise(b, _, _, _) => b < |db.batches|
    case Refund(b, _) => b < |db.batches|
    case RefundOrder(b) => b < |db.batches|
    case RefundLedger(b, row) => b < |db.batches| && !row.ref.BatchItem?
    case CompleteBatch(b, _, _) => b < |db.batches|
    case Cancel(_, _) => true
    case ChangeUser(id, u) => id < |db.users|
  }

  function CreditsItem(b: nat, i: nat): Row -> int {
    (r: Row) => if r.ref == BatchItem(b, i) && r.direction == Debit then 1 else 0
  }

  /** How many ledger rows credit item `i` of batch `b` to somebody. */
  function Credits(db: Store, b: nat, i: nat): int {
    Sum(db.books.ledger, CreditsItem(b, i))
  }

  ghost predicate CreditedOnce(db: Store) {
    forall b, i :: 0 <= b < |db.batches| && 0 <= i < |db.batches[b].items| ==>
                     Credits(db, b, i) == if db.batches[b].items[i].status == Success then 1 else 0
  }

  ghost predicate RowsDescribe(db: Store) {
    forall r :: r in db.books.ledger && r.ref.BatchItem? ==> Describes(db, r)
  }

  /** A row about an item names its sender or its receiver, and its amount. */
  ghost predicate Describes(db: Store, r: Row)
    requires r.ref.BatchItem?
  {
    && r.ref.batch < |db.batches|
    && r.ref.item < |db.batches[r.ref.batch].items|
    && var batch := db.batches[r.ref.batch]; var x := batch.items[r.ref.item];
       r.amount == x.amount && r.account == if r.direction == Debit then x.to else batch.sender
  }

  ghost predicate Shape(db: Store) {
    && |db.users| == |db.books.accounts|
    && db.books.Sound()
    && forall b :: 0 <= b < |db.batches| ==> db.batches[b].sender < |db.users|
  }

  ghost predicate Valid(db: Store) {
    Shape(db) && CreditedOnce(db) && RowsDescribe(db)
  }

  lemma ItemTotalNonNegative(items: seq<Item>)
    ensures ItemTotal(items) >= 0
  {
    SumNonNegative(items, AmountIf(Anything()));
  }

  /** A write; one that addresses nothing, or whose transaction throws, changes nothing. */
  ghost function Apply(db: Store, w: Write): Store
    requires Shape(db)
  {
    if !Addressed(db, w) then db
    else
      match w
      case Submit(sender, items, key, withinLimit, now) =>
        ItemTotalNonNegative(items);
        var r := SubmitTx(db, sender, items, key, withinLimit, now);
        if r.Created? then r.db else db
      case ProcessOne(b, i, mishap) => ProcessItem(db, b, i, mishap)
      case Finalise(b, badTotal, ok, bad) => FinaliseTx(db, b, badTotal, ok, bad)
      case Refund(b, badTotal) => RefundWrite(db, b, badTotal)
      case RefundOrder(b) => OrderWrite(db, b)
      case RefundLedger(b, row) => LedgerWrite(db, b, row)
      case CompleteBatch(b, ok, bad) => CompleteWrite(db, b, ok, bad)
      case Cancel(b, user) => var r := CancelTx(db, b, user); if r.Ok? then r.value else db
      case ChangeUser(id, u) => db.(users := db.users[id := u])
  }

  // ---------------------------------------------------------------- money

  /** The same accounts, each still sound, with the same money in all. */
  ghost predicate MoneyKept(k: Books, k': Books) {
    && |k'.accounts| == |k.accounts|
    && k'.Sound()
    && Sum(k'.accounts, TotalOf()) == Sum(k.accounts, TotalOf())
    && k'.revenue == k.revenue
  }

  lemma SubmitMoney(db: Store, w: Write)
    requires Shape(db) && w.Submit?
    ensures MoneyKept(db.books, Apply(db, w).books)
  {
    var db' := Apply(db, w);
    if db'.books != db.books {
      ItemTotalNonNegative(w.items);
      OneAccountChanges(db.books, db'.books, w.sender);
    }
  }

  lemma ProcessMoney(db: Store, b: nat, i: nat, mishap: Mishap)
    requires Shape(db) && b < |db.batches| && i < |db.batches[b].items|
    ensures MoneyKept(db.books, ProcessItem(db, b, i, mishap).books)
  {
    var batch := db.batches[b];
    if ProcessItem(db, b, i, mishap).books != db.books {
      PayOutConserves(db.books, batch.sender, batch.items[i].to, batch.items[i].amount, BatchItem(b, i));
    }
  }

  lemma RefundMoney(db: Store, w: Write)
    requires Shape(db) && (w.Finalise? || w.Refund? || w.Cancel?)
    ensures MoneyKept(db.books, Apply(db, w).books)
  {
    var db' := Apply(db, w);
    if db'.books != db.books {
      OneAccountChanges(db.books, db'.books, db.batches[w.batch].sender);
    }
  }

  lemma ApplyMoney(db: Store, w: Write)
    requires Shape(db)
    ensures MoneyKept(db.books, Apply(db, w).books)
  {
    if w.Submit? {
      SubmitMoney(db, w);
    } else if w.ProcessOne? {
      if Addressed(db, w) { ProcessMoney(db, w.batch, w.item, w.mishap); }
    } else if w.Finalise? || w.Refund? || w.Cancel? {
      RefundMoney(db, w);
    }
  }

  lemma ApplyShape(db: Store, w: Write)
    requires Shape(db)
    ensures Shape(Apply(db, w))
  {
    ApplyMoney(db, w);
    ApplyForward(db, w);
    var db' := Apply(db, w);
    forall b | 0 <= b < |db'.batches| ensures db'.batches[b].sender < |db'.users| {
      if b < |db.batches| {
        assert BatchMoves(db.batches[b], db'.batches[b]);
      }
    }
  }

  // ---------------------------------------------------------------- statuses only move forward

  ghost predicate ItemMoves(x: Item, y: Item) {
    && y.to == x.to && y.amount == x.amount
    && (x.status == Pending || y.status == x.status)
  }

  ghost predicate BatchMoves(x: Batch, y: Batch) {
    && y.sender == x.sender
    && |y.items| == |x.items|
    && (forall i :: 0 <= i < |x.items| ==> ItemMoves(x.items[i], y.items[i]))
    && (x.status == Processing
        || (y.status == x.status && y.successCount == x.successCount && y.failedCount == x.failedCount))
  }

  /** Batches are only appended, items keep receiver and amount, and a decided item or batch stays decided. */
  ghost predicate Forward(db: Store, db': Store) {
    && |db.batches| <= |db'.batches|
    && forall b :: 0 <= b < |db.batches| ==> BatchMoves(db.batches[b], db'.batches[b])
  }

  lemma BatchWriteForward(db: Store, w: Write, b: nat)
    requires Shape(db) && Addressed(db, w) && b < |db.batches|
    requires w.ProcessOne? || w.Finalise? || w.Refund? || w.RefundOrder? || w.RefundLedger? || w.CompleteBatch?
    requires b == w.batch
    ensures BatchMoves(db.batches[b], Apply(db, w).batches[b])
  {
    hide Sum, Release, Unfreeze, PayOut;
  }

  lemma ApplyForward(db: Store, w: Write)
    requires Shape(db)
    ensures Forward(db, Apply(db, w))
  {
    hide Sum;
    var db' := Apply(db, w);
    if db'.batches != db.batches && !w.Submit? {
      assert db'.batches == db.batches[w.batch := db'.batches[w.batch]];
      if !w.Cancel? {
        BatchWriteForward(db, w, w.batch);
      }
    }
  }

  // ---------------------------------------------------------------- at most one credit

  lemma {:induction false} NoCredit(rows: seq<Row>, b: nat, i: nat)
    requires forall r :: r in rows ==> r.ref != BatchItem(b, i)
    ensures Sum(rows, CreditsItem(b, i)) == 0
  {
    if rows != [] {
      NoCredit(rows[..|rows| - 1], b, i);
    }
  }

  lemma PayOutCredits(k: Books, s: nat, r: nat, amount: int, b: nat, i: nat, b': nat, i': nat)
    requires s < |k.accounts| && r < |k.accounts| && PayOut(k, s, r, amount, BatchItem(b, i)).Some?
    ensures Sum(PayOut(k, s, r, amount, BatchItem(b, i)).value.ledger, CreditsItem(b', i')) ==
            Sum(k.ledger, CreditsItem(b', i')) + if (b, i) == (b', i') then 1 else 0
  {
    var k' := PayOut(k, s, r, amount, BatchItem(b, i)).value;
    var x, y := k'.ledger[|k.ledger|], k'.ledger[|k.ledger| + 1];
    assert k'.ledger == (k.ledger + [x]) + [y];
    SumAppend(k.ledger, x, CreditsItem(b', i'));
    SumAppend(k.ledger + [x], y, CreditsItem(b', i'));
  }

  lemma RowsStayTrue(db: Store, db': Store)
    requires RowsDescribe(db) && Forward(db, db')
    ensures forall r :: r in db.books.ledger && r.ref.BatchItem? ==> Describes(db', r)
  {
    forall r | r in db.books.ledger && r.ref.BatchItem? ensures Describes(db', r) {
      assert Describes(db, r);
      assert BatchMoves(db.batches[r.ref.batch], db'.batches[r.ref.batch]);
      assert ItemMoves(db.batches[r.ref.batch].items[r.ref.item], db'.batches[r.ref.batch].items[r.ref.item]);
    }
  }

  lemma ProcessCredits(db: Store, b: nat, i: nat, mishap: Mishap)
    requires Shape(db) && CreditedOnce(db) && b < |db.batches| && i < |db.batches[b].items|
    ensures CreditedOnce(ProcessItem(db, b, i, mishap))
  {
    var db' := ProcessItem(db, b, i, mishap);
    var batch := db.batches[b];
    forall b', i' | 0 <= b' < |db'.batches| && 0 <= i' < |db'.batches[b'].items|
      ensures Credits(db', b', i') == if db'.batches[b'].items[i'].status == Success then 1 else 0
    {
      assert Credits(db, b', i') == if db.batches[b'].items[i'].status == Success then 1 else 0;
      if db'.books != db.books {
        PayOutCredits(db.books, batch.sender, batch.items[i].to, batch.items[i].amount, b, i, b', i');
      }
    }
  }

  lemma ProcessRows(db: Store, b: nat, i: nat, mishap: Mishap)
    requires Shape(db) && RowsDescribe(db) && b < |db.batches| && i < |db.batches[b].items|
    ensures RowsDescribe(ProcessItem(db, b, i, mishap))
  {
    ApplyForward(db, ProcessOne(b, i, mishap));
    RowsStayTrue(db, ProcessItem(db, b, i, mishap));
  }

  ghost predicate SameSuccesses(x: Batch, y: Batch) {
    && |x.items| == |y.items|
    && forall i :: 0 <= i < |x.items| ==> (x.items[i].status == Success <==> y.items[i].status == Success)
  }

  /** At most one ledger row more, about no item. */
  ghost predicate OneOtherRow(rows: seq<Row>, rows': seq<Row>) {
    || rows' == rows
    || (|rows'| == |rows| + 1 && rows' == rows + [rows'[|rows|]] && !rows'[|rows|].ref.BatchItem?)
  }

  ghost predicate NothingPaid(db: Store, db': Store) {
    && |db.batches| <= |db'.batches|
    && (forall b :: 0 <= b < |db.batches| ==> SameSuccesses(db.batches[b], db'.batches[b]))
    && (forall b :: |db.batches| <= b < |db'.batches| ==> IsFresh(db'.batches[b].items))
  }

  /** A write other than an item's transaction pays nothing out. */
  lemma OtherWriteRows(db: Store, w: Write)
    requires Shape(db) && !w.ProcessOne?
    ensures OneOtherRow(db.books.ledger, Apply(db, w).books.ledger)
  {
    hide Sum, CoverFailed, CancelItems;
  }

  lemma OtherWriteBatches(db: Store, w: Write)
    requires Shape(db) && !w.ProcessOne?
    ensures NothingPaid(db, Apply(db, w))
  {
    hide Sum, Release, Unfreeze;
    var db' := Apply(db, w);
    if db'.batches != db.batches && !w.Submit? {
      assert db'.batches == db.batches[w.batch := db'.batches[w.batch]];
      assert SameSuccesses(db.batches[w.batch], db'.batches[w.batch]);
    }
  }

  lemma OtherCredits(db: Store, w: Write)
    requires Shape(db) && CreditedOnce(db) && RowsDescribe(db) && !w.ProcessOne?
    ensures CreditedOnce(Apply(db, w))
  {
    var db' := Apply(db, w);
    OtherWriteRows(db, w);
    OtherWriteBatches(db, w);
    forall b, i | 0 <= b < |db'.batches| && 0 <= i < |db'.batches[b].items|
      ensures Credits(db', b, i) == if db'.batches[b].items[i].status == Success then 1 else 0
    {
      if db'.books.ledger != db.books.ledger {
        SumAppend(db.books.ledger, db'.books.ledger[|db.books.ledger|], CreditsItem(b, i));
      }
      if b < |db.batches| {
        assert SameSuccesses(db.batches[b], db'.batches[b]);
        assert Credits(db, b, i) == if db.batches[b].items[i].status == Success then 1 else 0;
      } else {
        assert IsFresh(db'.batches[b].items);
        NoCredit(db.books.ledger, b, i);
      }
    }
  }

  lemma OtherRows(db: Store, w: Write)
    requires Shape(db) && RowsDescribe(db) && !w.ProcessOne?
    ensures RowsDescribe(Apply(db, w))
  {
    OtherWriteRows(db, w);
    ApplyForward(db, w);
    RowsStayTrue(db, Apply(db, w));
  }

  lemma ApplyKeepsValid(db: Store, w: Write)
    requires Valid(db)
    ensures Valid(Apply(db, w))
  {
    hide Sum, Shape, CreditedOnce, RowsDescribe, ProcessItem;
    ApplyShape(db, w);
    if w.ProcessOne? {
      if Addressed(db, w) {
        ProcessCredits(db, w.batch, w.item, w.mishap);
        ProcessRows(db, w.batch, w.item, w.mishap);
      }
    } else {
      OtherCredits(db, w);
      OtherRows(db, w);
    }
  }

  ghost function Run(db: Store, writes: seq<Write>): (r: Store)
    requires Valid(db)
    ensures Valid(r)
    decreases |writes|
  {
    if writes == [] then db
    else
      var before := Run(db, writes[..|writes| - 1]);
      ApplyKeepsValid(before, writes[|writes| - 1]);
      Apply(before, writes[|writes| - 1])
  }

  lemma ForwardTransitive(a: Store, b: Store, c: Store)
    requires Forward(a, b) && Forward(b, c)
    ensures Forward(a, c)
  {
    forall n | 0 <= n < |a.batches| ensures BatchMoves(a.batches[n], c.batches[n]) {
      assert BatchMoves(a.batches[n], b.batches[n]) && BatchMoves(b.batches[n], c.batches[n]);
      forall i | 0 <= i < |a.batches[n].items| ensures ItemMoves(a.batches[n].items[i], c.batches[n].items[i]) {
        assert ItemMoves(a.batches[n].items[i], b.batches[n].items[i]);
      }
    }
  }

  /**
   In every interleaving: accounts stay sound, the sum of all totals never changes, each item is credited
   at most once and exactly when it is SUCCESS, and nothing decided is ever undone.
  */
  lemma {:induction false} EveryInterleavingConserves(db: Store, writes: seq<Write>)
    requires Valid(db)
    ensures var end := Run(db, writes);
            && end.books.Sound()
            && Sum(end.books.accounts, TotalOf()) == Sum(db.books.accounts, TotalOf())
            && end.books.revenue == db.books.revenue
            && CreditedOnce(end) && RowsDescribe(end)
            && Forward(db, end)
    decreases |writes|
  {
    if writes != [] {
      var before := Run(db, writes[..|writes| - 1]);
      EveryInterleavingConserves(db, writes[..|writes| - 1]);
      ApplyMoney(before, writes[|writes| - 1]);
      ApplyForward(before, writes[|writes| - 1]);
      ForwardTransitive(db, before, Run(db, writes));
    }
  }

  // ---------------------------------------------------------------- ledger replay

  /** The money operation that a write amounts to; recovery's refund is two writes, so it has none. */
  ghost function OpOf(db: Store, w: Write): Option<Op>
    requires Shape(db)
  {
    if !Addressed(db, w) then None
    else
      match w
      case Submit(sender, items, key, withinLimit, now) =>
        ItemTotalNonNegative(items);
        if SubmitTx(db, sender, items, key, withinLimit, now).Created? then
          Some(OpFreeze(sender, ItemTotal(items), BatchFreeze(|db.batches|)))
        else None
      case ProcessOne(b, i, mishap) =>
        var x := db.batches[b].items[i];
        if Reported(db, b, i, mishap)
        then Some(OpPayOut(db.batches[b].sender, x.to, x.amount, BatchItem(b, i)))
        else None
      case Finalise(b, badTotal, _, _) =>
        if Refundable(db, b, badTotal) then Some(OpRelease(db.batches[b].sender, badTotal, BatchRefund(b))) else None
      case Cancel(b, user) =>
        var refund := if b < |db.batches| then PendingTotal(db.batches[b].items) else 0;
        if CancelTx(db, b, user).Ok? && Refundable(db, b, refund) then
          Some(OpRelease(db.batches[b].sender, refund, BatchCancel(b)))
        else None
      case _ => None
  }

  lemma WriteIsOp(db: Store, w: Write)
    requires Shape(db) && !w.Refund? && !w.RefundLedger?
    ensures OpOf(db, w).Some? ==> Legal(|db.books.accounts|, OpOf(db, w).value)
    ensures Apply(db, w).books == if OpOf(db, w).Some? then Do(db.books, OpOf(db, w).value) else db.books
  {
  }

  /** Every batch write keeps the ledger replayable, except the two separate writes of recovery's refund. */
  lemma WriteReplays(db: Store, w: Write, opening: seq<int>)
    requires Shape(db) && !w.Refund? && !w.RefundLedger? && LedgerReplays(db.books, opening)
    ensures LedgerReplays(Apply(db, w).books, opening)
  {
    WriteIsOp(db, w);
    if OpOf(db, w).Some? {
      DoReplays(db.books, OpOf(db, w).value, opening);
    }
  }

  /** Recovery's refund replays too once its ledger row is written, if nothing touches the account in between. */
  lemma RecoveryRefundReplays(db: Store, b: nat, badTotal: nat, opening: seq<int>)
    requires Shape(db) && b < |db.batches| && Refundable(db, b, badTotal) && LedgerReplays(db.books, opening)
    ensures var refunded := OrderWrite(RefundWrite(db, b, badTotal), b);
            && |refunded.books.accounts| == |db.books.accounts|
            && LedgerReplays(LedgerWrite(refunded, b, RefundRow(refunded.books.accounts, db.batches[b].sender, badTotal,
                                                                BatchRefund(b))).books, opening)
  {
    DoReplays(db.books, OpRelease(db.batches[b].sender, badTotal, BatchRefund(b)), opening);
  }

  ghost predicate WholeTransactions(writes: seq<Write>) {
    forall w :: w in writes ==> !w.Refund? && !w.RefundLedger?
  }

  /** Every interleaving of whole transactions keeps every account's ledger replayable. */
  lemma {:induction false} EveryInterleavingReplays(db: Store, writes: seq<Write>, opening: seq<int>)
    requires Valid(db) && WholeTransactions(writes) && LedgerReplays(db.books, opening)
    ensures LedgerReplays(Run(db, writes).books, opening)
    decreases |writes|
  {
    if writes != [] {
      EveryInterleavingReplays(db, writes[..|writes| - 1], opening);
      WriteReplays(Run(db, writes[..|writes| - 1]), writes[|writes| - 1], opening);
    }
  }
}
