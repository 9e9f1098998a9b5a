/** Every run of the protocol keeps the escrow exact: one event at a time, then any sequence of events. */
module BatchProtocol {
  import opened Prelude
  import opened Bank
  import opened Users
  import opened BatchModel
  import opened BatchSums
  import opened BatchEscrow

  // ---------------------------------------------------------------- a driver's move, as a write

  /** The write that a move performs, if it performs one. */
  ghost function WriteOf(db: Store, b: nat, d: Driver, mishap: Mishap): Option<I.Write>
    requires HasBatch(db, b) && InRange(db.batches[b], d)
  {
    match d
    case Idle => None
    case Creating(next, ok, bad, badTotal) =>
      if next < |db.batches[b].items| then Some(I.ProcessOne(b, next, mishap))
      else if badTotal >= 0 then Some(I.Finalise(b, badTotal, ok, bad))
      else None
    case Resuming(todo) => if todo != [] then Some(I.ProcessOne(b, todo[0], mishap)) else None
    case Refunding(ok, bad, badTotal) => if badTotal >= 0 then Some(I.Refund(b, badTotal)) else None
    case Reading(_, _, _) => None
    case Ordering(_, _, _) => Some(I.RefundOrder(b))
    case Booking(_, _, row) => if row.ref.BatchItem? then None else Some(I.RefundLedger(b, row))
    case Completing(ok, bad) => Some(I.CompleteBatch(b, ok, bad))
  }

  ghost predicate GoodLocals(d: Driver) {
    && (d.Creating? || d.Refunding? ==> d.badTotal >= 0)
    && (d.Booking? ==> !d.row.ref.BatchItem?)
  }

  lemma MoveIsWrite(db: Store, b: nat, d: Driver, mishap: Mishap)
    requires I.Shape(db) && b < |db.batches| && InRange(db.batches[b], d) && GoodLocals(d)
    ensures Move(db, b, d, mishap).0 ==
            if WriteOf(db, b, d, mishap).Some? then I.Apply(db, WriteOf(db, b, d, mishap).value) else db
    ensures Move(db, b, d, mishap).0.users == db.users
  {
  }

  lemma MoveKeepsValid(db: Store, b: nat, d: Driver, mishap: Mishap)
    requires I.Valid(db) && SendersExist(db) && b < |db.batches| && InPhase(db.batches[b], d)
    ensures I.Valid(Move(db, b, d, mishap).0)
    ensures Move(db, b, d, mishap).0.users == db.users
  {
    NonNegative(db.batches[b].items);
    if d.Creating? { NonNegative(db.batches[b].items[..d.next]); }
    MoveIsWrite(db, b, d, mishap);
    if WriteOf(db, b, d, mishap).Some? {
      I.ApplyKeepsValid(db, WriteOf(db, b, d, mishap).value);
    }
  }

  // ---------------------------------------------------------------- a driver's move keeps its phase and the money

  lemma ProcessOneItem(db: Store, b: nat, i: nat, mishap: Mishap)
    requires HasBatch(db, b) && i < |db.batches[b].items| && db.batches[b].items[i].status == Pending
             && mishap != MarkLost
    ensures var x, y := db.batches[b], ProcessItem(db, b, i, mishap).batches[b];
            && y == x.(items := x.items[i := y.items[i]])
            && (y.items[i] == x.items[i].(status := Success) || y.items[i] == x.items[i].(status := Failed))
            && (Reported(db, b, i, mishap) <==> y.items[i].status == Success)
  {
  }

  lemma FailedUpTo(items: seq<Item>, next: nat)
    requires next < |items|
    ensures FailedTotal(items[..next + 1]) == FailedTotal(items[..next]) + AmountIf(IsFailed())(items[next])
  {
    assert items[..next + 1] == items[..next] + [items[next]];
    SumAppend(items[..next], items[next], AmountIf(IsFailed()));
  }

  lemma CreatingDecides(s: System, b: nat, mishap: Mishap)
    requires Inv(s) && mishap != MarkLost
    requires b < |s.drivers| && s.drivers[b].Creating? && s.drivers[b].next < |s.db.batches[b].items|
    requires s.db.batches[b].items[s.drivers[b].next].status == Pending
    ensures var r := Move(s.db, b, s.drivers[b], mishap);
            b < |r.0.batches| && InPhase(r.0.batches[b], r.1)
  {
    hide Sum, Accounted, I.Valid;
    var next := s.drivers[b].next;
    var items := s.db.batches[b].items;
    var r := Move(s.db, b, s.drivers[b], mishap);
    assert InPhase(s.db.batches[b], s.drivers[b]);
    ProcessOneItem(s.db, b, next, mishap);
    var items' := r.0.batches[b].items;
    OneItem(items, next, items'[next]);
    assert items'[..next] == items[..next];
    FailedUpTo(items', next);
  }

  lemma CreatingMoves(s: System, b: nat, mishap: Mishap)
    requires Inv(s) && mishap != MarkLost
    requires b < |s.drivers| && s.drivers[b].Creating? && s.drivers[b].next < |s.db.batches[b].items|
    ensures var r := Move(s.db, b, s.drivers[b], mishap);
            Transfers(s.db, r.0, b) && InPhase(r.0.batches[b], r.1)
  {
    hide Sum, Accounted, Transfers, ProcessItem, I.Valid;
    var next := s.drivers[b].next;
    var items := s.db.batches[b].items;
    assert InPhase(s.db.batches[b], s.drivers[b]);
    ProcessTransfers(s.db, b, next, mishap);
    if items[next].status == Pending {
      CreatingDecides(s, b, mishap);
    } else {
      ProcessDecided(s.db, b, next, mishap);
      FailedUpTo(items, next);
    }
  }

  lemma FinaliserMoves(s: System, b: nat, mishap: Mishap)
    requires Inv(s) && b < |s.drivers| && s.drivers[b].Creating? && s.drivers[b].next == |s.db.batches[b].items|
    ensures var r := Move(s.db, b, s.drivers[b], mishap);
            Transfers(s.db, r.0, b) && InPhase(r.0.batches[b], r.1)
  {
    hide Sum, Accounted;
    var r := Move(s.db, b, s.drivers[b], mishap);
    var items := s.db.batches[b].items;
    assert InPhase(s.db.batches[b], s.drivers[b]);
    assert items[..|items|] == items;
    CountsAddUp(items);
    HeldIsFailed(items);
    GuardsHold(s, b);
    NonNegative(items);
    if FailedTotal(items) > 0 {
      assert Refundable(s.db, b, FailedTotal(items));
      CoverTransfers(s.db, r.0, b);
    } else {
      assert forall a :: 0 <= a < |s.db.books.accounts| ==> AccountMoves(s.db, r.0, b, a);
    }
  }

  lemma ResumingMoves(s: System, b: nat, mishap: Mishap)
    requires Inv(s) && mishap != MarkLost && b < |s.drivers| && s.drivers[b].Resuming? && s.drivers[b].todo != []
    ensures var r := Move(s.db, b, s.drivers[b], mishap);
            Transfers(s.db, r.0, b) && InPhase(r.0.batches[b], r.1)
  {
    hide Sum, Accounted, ProcessItem;
    var todo := s.drivers[b].todo;
    var items := s.db.batches[b].items;
    var r := Move(s.db, b, s.drivers[b], mishap);
    assert InPhase(s.db.batches[b], s.drivers[b]);
    assert items[todo[0]].status == Pending by { assert todo[0] in todo; }
    ProcessOneItem(s.db, b, todo[0], mishap);
    ProcessTransfers(s.db, b, todo[0], mishap);
    OneItem(items, todo[0], r.0.batches[b].items[todo[0]]);
  }

  lemma CountingMoves(s: System, b: nat, mishap: Mishap)
    requires Inv(s) && b < |s.drivers| && s.drivers[b].Resuming? && s.drivers[b].todo == []
    ensures var r := Move(s.db, b, s.drivers[b], mishap);
            r.0 == s.db && Transfers(s.db, r.0, b) && InPhase(r.0.batches[b], r.1)
  {
    var items := s.db.batches[b].items;
    assert InPhase(s.db.batches[b], s.drivers[b]);
    NonNegative(items);
    assert NonePending(items);
    HeldIsFailed(items);
    assert forall a :: 0 <= a < |s.db.books.accounts| ==> AccountMoves(s.db, s.db, b, a);
  }

  lemma RefundingMoves(s: System, b: nat, mishap: Mishap)
    requires Inv(s) && b < |s.drivers| && s.drivers[b].Refunding?
    ensures var r := Move(s.db, b, s.drivers[b], mishap);
            Transfers(s.db, r.0, b) && InPhase(r.0.batches[b], r.1) && r.1.Reading?
  {
    var items := s.db.batches[b].items;
    var r := Move(s.db, b, s.drivers[b], mishap);
    assert InPhase(s.db.batches[b], s.drivers[b]);
    HeldIsFailed(items);
    GuardsHold(s, b);
    CoverTransfers(s.db, r.0, b);
  }

  lemma OtherMoves(s: System, b: nat, mishap: Mishap)
    requires Inv(s) && b < |s.drivers|
    requires !s.drivers[b].Creating? && !s.drivers[b].Resuming? && !s.drivers[b].Refunding?
    ensures var r := Move(s.db, b, s.drivers[b], mishap);
            Transfers(s.db, r.0, b) && InPhase(r.0.batches[b], r.1)
  {
    var r := Move(s.db, b, s.drivers[b], mishap);
    assert InPhase(s.db.batches[b], s.drivers[b]);
    assert forall a :: 0 <= a < |s.db.books.accounts| ==> AccountMoves(s.db, r.0, b, a);
  }

  // ---------------------------------------------------------------- events

  ghost predicate ExistingBatch(s: System, b: nat) {
    b < |s.drivers| && b < |s.db.batches|
  }

  /** A new submission: fresh items, and a key no stored batch has. */
  ghost predicate NewSubmission(s: System, sender: nat, items: seq<Item>, key: Option<string>) {
    sender < |s.db.users| && I.IsFresh(items) && FindKey(s.db.batches, key).None?
  }

  /** The columns of a batch that no write changes. */
  ghost predicate SameColumns(x: Batch, y: Batch) {
    y.sender == x.sender && y.key == x.key && |y.items| == |x.items|
  }

  lemma ProcessColumns(db: Store, b: nat, i: nat, mishap: Mishap)
    requires Addresses(db, b, i)
    ensures var db' := ProcessItem(db, b, i, mishap);
            && db'.users == db.users && |db'.books.accounts| == |db.books.accounts|
            && |db'.batches| == |db.batches| && db'.batches == db.batches[b := db'.batches[b]]
            && SameColumns(db.batches[b], db'.batches[b])
  {
  }

  lemma MoveColumns(db: Store, b: nat, d: Driver, mishap: Mishap)
    requires HasBatch(db, b) && InRange(db.batches[b], d)
    ensures var r := Move(db, b, d, mishap);
            && r.0.users == db.users && |r.0.books.accounts| == |db.books.accounts|
            && |r.0.batches| == |db.batches| && r.0.batches == db.batches[b := r.0.batches[b]]
            && SameColumns(db.batches[b], r.0.batches[b])
            && InRange(r.0.batches[b], r.1)
  {
    hide Sum, ProcessItem, Reported;
    var items := db.batches[b].items;
    if d.Creating? && d.next < |items| {
      ProcessColumns(db, b, d.next, mishap);
    } else if d.Resuming? && d.todo != [] {
      ProcessColumns(db, b, d.todo[0], mishap);
    }
  }

  lemma MoveKeepsReady(s: System, b: nat, mishap: Mishap)
    requires Ready(s) && ExistingBatch(s, b)
    ensures var r := Move(s.db, b, s.drivers[b], mishap);
            Ready(s.(db := r.0, drivers := s.drivers[b := r.1]))
  {
    hide Move;
    MoveColumns(s.db, b, s.drivers[b], mishap);
  }

  lemma CancelKeepsReady(s: System, b: nat, user: nat)
    requires Ready(s) && ExistingBatch(s, b)
    ensures CancelTx(s.db, b, user).Ok? ==> Ready(s.(db := CancelTx(s.db, b, user).value))
  {
    if CancelTx(s.db, b, user).Ok? {
      var db' := CancelTx(s.db, b, user).value;
      assert db'.batches == s.db.batches[b := db'.batches[b]] && SameColumns(s.db.batches[b], db'.batches[b]);
    }
  }

  /**
   One event; one whose guard fails leaves the system as it is. `Retry` is a createBatch call whose key names a stored
   batch of its sender: the call goes on to the loop and the finaliser with that batch, whatever its status.
  */
  ghost function Next(s: System, e: Event): (r: System)
    requires Ready(s)
    ensures Ready(r)
  {
    match e
    case Submit(sender, items, key, withinLimit, now) =>
      if !NewSubmission(s, sender, items, key) then s
      else
        I.ItemTotalNonNegative(items);
        var r := SubmitTx(s.db, sender, items, key, withinLimit, now);
        if r.Created? then s.(db := r.db, drivers := s.drivers + [Creating(0, 0, 0, 0)]) else s
    case Advance(b, mishap) =>
      if !ExistingBatch(s, b) then s
      else
        var r := Move(s.db, b, s.drivers[b], mishap);
        MoveKeepsReady(s, b, mishap);
        s.(db := r.0, drivers := s.drivers[b := r.1])
    case Crash(b) => if !ExistingBatch(s, b) then s else s.(drivers := s.drivers[b := Idle])
    case Recover(b) =>
      if !ExistingBatch(s, b) || s.drivers[b] != Idle || s.db.batches[b].status != Processing then s
      else
        var todo := PendingFrom(s.db.batches[b].items, |s.db.batches[b].items|);
        if todo == [] then s else s.(drivers := s.drivers[b := Resuming(todo)])
    case Cancel(b, user) =>
      if !ExistingBatch(s, b) then s
      else
        var r := CancelTx(s.db, b, user);
        CancelKeepsReady(s, b, user);
        if r.Ok? then s.(db := r.value) else s
    case Retry(sender, key) =>
      var found := FindKey(s.db.batches, key);
      if found.None? || s.db.batches[found.value].sender != sender || s.drivers[found.value] != Idle then s
      else s.(drivers := s.drivers[found.value := Creating(0, 0, 0, 0)])
    case Elsewhere(a, available, frozen) =>
      if a >= |s.outside| || s.db.books.accounts[a].available + available < 0 || s.outside[a].frozen + frozen < 0 then s
      else
        var x := s.db.books.accounts[a];
        var x' := Account(x.available + available, x.frozen + frozen, x.total + available + frozen);
        s.(db := s.db.(books := s.db.books.(accounts := s.db.books.accounts[a := x'])),
           outside := s.outside[a := Flow(s.outside[a].available + available, s.outside[a].frozen + frozen)])
    case ChangeUser(id, u) =>
      if id >= |s.db.users| || (s.db.users[id].hasAccount && !u.hasAccount) then s
      else s.(db := s.db.(users := s.db.users[id := u]))
  }

  /** Nothing of the batch was paid out or refunded yet. */
  ghost predicate Unpaid(x: Batch) {
    && x.status == Processing && NoneReleased(x.items) && !x.refundOrder
    && forall i :: 0 <= i < |x.items| ==> x.items[i].status != Success
  }

  /**
   Every failure is marked, a cancellation meets no caller at work on its batch, and a replayed key finds a batch of
   which nothing was paid out or refunded.
  */
  ghost predicate Orderly(s: System, e: Event) {
    && (e.Cancel? && e.batch < |s.drivers| ==> s.drivers[e.batch] == Idle)
    && (e.Advance? ==> e.mishap != MarkLost)
    && (e.Retry? ==> var found := FindKey(s.db.batches, e.key); found.Some? ==> Unpaid(s.db.batches[found.value]))
  }

  lemma AdvanceKeepsInv(s: System, b: nat, mishap: Mishap)
    requires Inv(s) && mishap != MarkLost
    ensures Inv(Next(s, Advance(b, mishap)))
  {
    if ExistingBatch(s, b) {
      var s' := Next(s, Advance(b, mishap));
      MoveKeepsValid(s.db, b, s.drivers[b], mishap);
      if s.drivers[b].Creating? {
        if s.drivers[b].next < |s.db.batches[b].items| {
          CreatingMoves(s, b, mishap);
        } else {
          FinaliserMoves(s, b, mishap);
        }
      } else if s.drivers[b].Resuming? {
        if s.drivers[b].todo != [] { ResumingMoves(s, b, mishap); } else { CountingMoves(s, b, mishap); }
      } else if s.drivers[b].Refunding? {
        RefundingMoves(s, b, mishap);
      } else {
        OtherMoves(s, b, mishap);
      }
      TransfersKeepAccounts(s, s', b);
      assert s'.db.batches[b].sender == s.db.batches[b].sender by { SameSender(s.db, b, s.drivers[b], mishap); }
    }
  }

  lemma SameSender(db: Store, b: nat, d: Driver, mishap: Mishap)
    requires HasBatch(db, b) && InRange(db.batches[b], d)
    ensures |Move(db, b, d, mishap).0.batches| == |db.batches|
    ensures Move(db, b, d, mishap).0.batches[b].sender == db.batches[b].sender
  {
  }

  lemma FreshSums(items: seq<Item>)
    requires I.IsFresh(items)
    ensures Held(items) == ItemTotal(items) && Returned(items) == 0 && FailedTotal(items) == 0
    ensures CountNat(items, Succeeded()) == 0 && CountNat(items, IsFailed()) == 0
    ensures forall a :: CreditTo(items, a) == 0
  {
    SumCong(items, items, AmountIf(HeldItem()), AmountIf(Anything()));
    NoneOf(items, ReturnedOf());
    NoneOf(items, AmountIf(IsFailed()));
    NoneOf(items, OneIf(Succeeded()));
    NoneOf(items, OneIf(IsFailed()));
    forall a ensures CreditTo(items, a) == 0 {
      NoneOf(items, AmountIf(CreditedTo(a)));
    }
  }

  lemma SubmitKeepsAccounts(s: System, e: Event)
    requires Inv(s) && e.Submit?
    ensures Accounted(Next(s, e))
  {
    var s' := Next(s, e);
    if s' != s {
      var x := s'.db.batches[|s.db.batches|];
      I.ItemTotalNonNegative(e.items);
      FreshSums(e.items);
      forall a | 0 <= a < |s'.outside| ensures Exact(s', a) {
        assert Exact(s, a);
        SumAppend(s.db.batches, x, FrozenShare(a));
        SumAppend(s.db.batches, x, AvailableShare(a));
      }
    }
  }

  lemma SubmitKeepsInv(s: System, e: Event)
    requires Inv(s) && e.Submit?
    ensures Inv(Next(s, e))
  {
    hide Sum;
    SubmitKeepsAccounts(s, e);
    if Next(s, e) != s {
      I.ItemTotalNonNegative(e.items);
      I.ApplyKeepsValid(s.db, I.Submit(e.sender, e.items, e.key, e.withinLimit, e.now));
      FreshSums(e.items);
      NoneOf(e.items[..0], AmountIf(IsFailed()));
    }
  }

  lemma CancelTransfers(s: System, b: nat, user: nat)
    requires Inv(s) && ExistingBatch(s, b) && s.drivers[b] == Idle && CancelTx(s.db, b, user).Ok?
    ensures Transfers(s.db, CancelTx(s.db, b, user).value, b)
    ensures InPhase(CancelTx(s.db, b, user).value.batches[b], Idle)
  {
    hide Sum, Accounted, CancelTx, CancelItems, Transfers;
    var items := s.db.batches[b].items;
    assert InPhase(s.db.batches[b], s.drivers[b]);
    GuardsHold(s, b);
    NonNegative(items);
    SumNonNegative(items, AmountIf(IsPending()));
    PendingIsHeld(items);
    CancelSums(items, Refundable(s.db, b, PendingTotal(items)));
    CancelMoves(s.db, b, user);
    CancelPhase(s.db, b, user);
  }

  lemma CancelPhase(db: Store, b: nat, user: nat)
    requires HasBatch(db, b) && InPhase(db.batches[b], Idle) && CancelTx(db, b, user).Ok?
    requires var x := db.batches[b].items;
             ItemTotal(CancelItems(x, Refundable(db, b, PendingTotal(x)))) == ItemTotal(x)
    ensures InPhase(CancelTx(db, b, user).value.batches[b], Idle)
  {
    hide Sum, CancelItems, Release;
  }

  /** The cancelling transaction moves what its items' sums say. */
  lemma CancelMoves(db: Store, b: nat, user: nat)
    requires HasBatch(db, b) && CancelTx(db, b, user).Ok?
    requires var x := db.batches[b].items;
             var refunds := Refundable(db, b, PendingTotal(x));
             var y := CancelItems(x, refunds);
             && (refunds || PendingTotal(x) == 0)
             && Held(y) == Held(x) - (if refunds then PendingTotal(x) else 0)
             && Returned(y) == Returned(x) + (if refunds then PendingTotal(x) else 0)
             && ItemTotal(y) == ItemTotal(x) && forall a :: CreditTo(y, a) == CreditTo(x, a)
    ensures Transfers(db, CancelTx(db, b, user).value, b)
  {
    hide Sum, CancelItems;
    var db' := CancelTx(db, b, user).value;
    var refund := PendingTotal(db.batches[b].items);
    if Refundable(db, b, refund) {
      RefundTransfers(db, db', b, refund);
    } else {
      assert forall a :: 0 <= a < |db.books.accounts| ==> AccountMoves(db, db', b, a);
    }
  }

  lemma {:induction false} PendingIsHeld(items: seq<Item>)
    ensures PendingTotal(items) <= Held(items)
  {
    if items != [] {
      PendingIsHeld(items[..|items| - 1]);
    }
  }

  lemma CancelKeepsInv(s: System, b: nat, user: nat)
    requires Inv(s) && (b < |s.drivers| ==> s.drivers[b] == Idle)
    ensures Inv(Next(s, Cancel(b, user)))
  {
    var s' := Next(s, Cancel(b, user));
    if s' != s {
      CancelTransfers(s, b, user);
      CancelIsWrite(s.db, b, user);
      assert I.Valid(s'.db) by { I.ApplyKeepsValid(s.db, I.Cancel(b, user)); }
      assert Accounted(s') by { TransfersKeepAccounts(s, s', b); }
      assert Phased(s');
    }
  }

  lemma CancelIsWrite(db: Store, b: nat, user: nat)
    requires I.Shape(db) && b < |db.batches| && CancelTx(db, b, user).Ok?
    ensures var db' := CancelTx(db, b, user).value;
            && db' == I.Apply(db, I.Cancel(b, user)) && db'.users == db.users
            && |db'.batches| == |db.batches| && db'.batches[b].sender == db.batches[b].sender
            && db'.batches == db.batches[b := db'.batches[b]]
  {
  }

  lemma SameBalances(s: System, s': System)
    requires Accounted(s)
    requires s'.db.books.accounts == s.db.books.accounts && s'.db.batches == s.db.batches && s'.outside == s.outside
    ensures Accounted(s')
  {
    forall a | 0 <= a < |s'.outside| ensures Exact(s', a) {
      assert Exact(s, a);
    }
  }

  lemma RecoverKeepsInv(s: System, b: nat)
    requires Inv(s)
    ensures Inv(Next(s, Recover(b)))
  {
    var s' := Next(s, Recover(b));
    SameBalances(s, s');
    if s' != s {
      var items := s.db.batches[b].items;
      var todo := PendingFrom(items, |items|);
      assert InPhase(s.db.batches[b], s.drivers[b]);
      assert items[todo[0]].status == Pending;
      assert InPhase(s.db.batches[b], Resuming(todo));
    }
  }

  lemma CrashKeepsInv(s: System, b: nat)
    requires Inv(s)
    ensures Inv(Next(s, Crash(b)))
  {
    SameBalances(s, Next(s, Crash(b)));
    if ExistingBatch(s, b) {
      assert InPhase(s.db.batches[b], s.drivers[b]);
    }
  }

  lemma ElsewhereKeepsInv(s: System, a: nat, available: int, frozen: int)
    requires Inv(s)
    ensures Inv(Next(s, Elsewhere(a, available, frozen)))
  {
    var s' := Next(s, Elsewhere(a, available, frozen));
    if s' != s {
      forall c | 0 <= c < |s'.outside| ensures Exact(s', c) {
        assert Exact(s, c);
      }
      OwnShareNonNegative(s, a);
      assert s'.db.books.accounts[a].Sound() by { assert Exact(s, a) && s.db.books.accounts[a].Sound(); }
      forall b, i | 0 <= b < |s'.db.batches| && 0 <= i < |s'.db.batches[b].items|
        ensures I.Credits(s'.db, b, i) == if s'.db.batches[b].items[i].status == Success then 1 else 0
      {
        assert I.Credits(s'.db, b, i) == I.Credits(s.db, b, i);
      }
      forall r | r in s'.db.books.ledger && r.ref.BatchItem? ensures I.Describes(s'.db, r) {
        assert I.Describes(s.db, r);
      }
    }
  }

  lemma OwnShareNonNegative(s: System, a: nat)
    ensures Sum(s.db.batches, FrozenShare(a)) >= 0
  {
    forall n | 0 <= n < |s.db.batches| ensures FrozenShare(a)(s.db.batches[n]) >= 0 {
      NonNegative(s.db.batches[n].items);
    }
    SumNonNegative(s.db.batches, FrozenShare(a));
  }

  lemma ChangeUserKeepsInv(s: System, id: nat, u: User)
    requires Inv(s)
    ensures Inv(Next(s, ChangeUser(id, u)))
  {
    var s' := Next(s, ChangeUser(id, u));
    if s' != s {
      I.ApplyKeepsValid(s.db, I.ChangeUser(id, u));
      SameBalances(s, s');
    }
  }

  lemma ReplayInv(s: System, b: nat)
    requires Inv(s) && ExistingBatch(s, b) && s.drivers[b] == Idle && Unpaid(s.db.batches[b])
    ensures Inv(s.(drivers := s.drivers[b := Creating(0, 0, 0, 0)]))
  {
    hide Sum;
    var items := s.db.batches[b].items;
    SameBalances(s, s.(drivers := s.drivers[b := Creating(0, 0, 0, 0)]));
    assert InPhase(s.db.batches[b], s.drivers[b]);
    NoneOf(items, OneIf(Succeeded()));
    NoneOf(items[..0], AmountIf(IsFailed()));
    assert InPhase(s.db.batches[b], Creating(0, 0, 0, 0));
  }

  /** Every orderly event keeps the escrow invariant. */
  lemma NextKeepsInv(s: System, e: Event)
    requires Inv(s) && Orderly(s, e)
    ensures Inv(Next(s, e))
  {
    match e
    case Submit(_, _, _, _, _) => SubmitKeepsInv(s, e);
    case Advance(b, mishap) => AdvanceKeepsInv(s, b, mishap);
    case Crash(b) => CrashKeepsInv(s, b);
    case Recover(b) => RecoverKeepsInv(s, b);
    case Cancel(b, user) => CancelKeepsInv(s, b, user);
    case Elsewhere(a, available, frozen) => ElsewhereKeepsInv(s, a, available, frozen);
    case ChangeUser(id, u) => ChangeUserKeepsInv(s, id, u);
    case Retry(_, key) => if Next(s, e) != s { ReplayInv(s, FindKey(s.db.batches, key).value); }
  }

  // ---------------------------------------------------------------- runs

  ghost function Run(s: System, events: seq<Event>): (r: System)
    requires Ready(s)
    ensures Ready(r)
    decreases |events|
  {
    if events == [] then s else Next(Run(s, events[..|events| - 1]), events[|events| - 1])
  }

  ghost predicate OrderlyRun(s: System, events: seq<Event>)
    requires Ready(s)
    decreases |events|
  {
    events == []
    || (OrderlyRun(s, events[..|events| - 1]) && Orderly(Run(s, events[..|events| - 1]), events[|events| - 1]))
  }

  lemma {:induction false} RunKeepsInv(s: System, events: seq<Event>)
    requires Inv(s) && OrderlyRun(s, events)
    ensures Inv(Run(s, events))
    decreases |events|
  {
    hide Next, I.Valid, Accounted, Phased;
    if events != [] {
      RunKeepsInv(s, events[..|events| - 1]);
      NextKeepsInv(Run(s, events[..|events| - 1]), events[|events| - 1]);
    }
  }

  /** A system before its first batch: any accounts whose balances add up. */
  ghost function Start(users: seq<User>, accounts: seq<Account>): System {
    System(Store(users, Books(accounts, [], [], 0), []), [],
           seq(|accounts|, a requires 0 <= a < |accounts| => Flow(accounts[a].available, accounts[a].frozen)))
  }

  lemma StartInv(users: seq<User>, accounts: seq<Account>)
    requires |users| == |accounts| && forall a :: 0 <= a < |accounts| ==> accounts[a].Sound()
    ensures Inv(Start(users, accounts))
  {
    var s := Start(users, accounts);
    forall a | 0 <= a < |s.outside| ensures Exact(s, a) {
      assert s.outside[a] == Flow(accounts[a].available, accounts[a].frozen);
    }
  }

  /** Where one item's money is. */
  datatype Place = AtReceiver | BackWithSender | InEscrow

  /** The item's money is in this place: credited by one ledger row, covered by one refund, or still frozen. */
  ghost predicate IsAt(db: Store, b: nat, i: nat, p: Place)
    requires b < |db.batches| && i < |db.batches[b].items|
  {
    match p
    case AtReceiver => I.Credits(db, b, i) == 1
    case BackWithSender => db.batches[b].items[i].releases == 1
    case InEscrow => HeldItem()(db.batches[b].items[i])
  }

  ghost predicate InOnePlace(db: Store, b: nat, i: nat)
    requires b < |db.batches| && i < |db.batches[b].items|
  {
    exists p :: IsAt(db, b, i, p) && forall q :: IsAt(db, b, i, q) ==> q == p
  }

  ghost predicate FinishedCleanly(x: Batch) {
    Held(x.items) == 0 && NonePending(x.items) && x.successCount + x.failedCount == |x.items|
  }

  /**
   In every reachable state a sender's frozen balance is exactly what other business froze plus the held money of
   his batches; each item's money is in exactly one place; a completed batch holds nothing and its counts add up.
  */
  lemma EscrowIsExact(start: System, events: seq<Event>)
    requires Inv(start) && OrderlyRun(start, events)
    ensures var s := Run(start, events);
            && (forall a :: 0 <= a < |s.outside| ==> Exact(s, a))
            && (forall b, i :: 0 <= b < |s.db.batches| && 0 <= i < |s.db.batches[b].items| ==> InOnePlace(s.db, b, i))
            && (forall b :: 0 <= b < |s.db.batches| && s.db.batches[b].status == Completed ==>
                              FinishedCleanly(s.db.batches[b]))
  {
    RunKeepsInv(start, events);
    var s := Run(start, events);
    forall b, i | 0 <= b < |s.db.batches| && 0 <= i < |s.db.batches[b].items| ensures InOnePlace(s.db, b, i) {
      OnePlace(s, b, i);
    }
    forall b | 0 <= b < |s.db.batches| && s.db.batches[b].status == Completed ensures FinishedCleanly(s.db.batches[b]) {
      assert InPhase(s.db.batches[b], s.drivers[b]);
      CountsAddUp(s.db.batches[b].items);
    }
  }

  lemma OnePlace(s: System, b: nat, i: nat)
    requires Inv(s) && b < |s.db.batches| && i < |s.db.batches[b].items|
    ensures InOnePlace(s.db, b, i)
  {
    var x := s.db.batches[b].items[i];
    assert InPhase(s.db.batches[b], s.drivers[b]);
    assert I.Credits(s.db, b, i) == if x.status == Success then 1 else 0;
    var p := if x.status == Success then AtReceiver else if x.releases == 1 then BackWithSender else InEscrow;
    assert IsAt(s.db, b, i, p);
    forall q | IsAt(s.db, b, i, q) ensures q == p {
      match q case AtReceiver => case BackWithSender => case InEscrow =>
    }
  }
}
