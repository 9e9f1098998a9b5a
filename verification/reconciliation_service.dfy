/** The reconciliation service over its tables: fetching a statement, matching it, and working on the differences. */
module ReconciliationService {
  import opened Prelude
  import opened ReconciliationModel

  datatype DiffStatus = Pending | Investigating | Resolved | Ignored

  datatype DiffRow = DiffRow(
    id: nat, day: int, channel: string, diff: Diff, status: DiffStatus,
    assignedTo: Option<string>, resolution: Option<string>, resolvedBy: Option<string>)

  datatype Report = Report(matched: nat, mismatched: nat, unmatched: nat, missingInChannel: nat, totalDifferences: nat)

  /** The database call of a fetch that fails, if any. */
  datatype Fault =
    NoFault | AtLookup | AtOrders | AtUpsert | AtItemDelete | AtDifferenceDelete | AtItemCreate | AtReadBack

  /** Whether a fetch ever makes that call: only a repeated fetch deletes, and only items are inserted. */
  ghost predicate Made(fault: Fault, repeated: bool, items: seq<Item>) {
    match fault
    case NoFault => false
    case AtItemDelete => repeated
    case AtDifferenceDelete => repeated
    case AtItemCreate => items != []
    case _ => true
  }

  datatype FetchError = AlreadyFetched | FetchFailed | UniqueConflict | DatabaseError

  datatype MatchError = StatementNotFound | StatementNotFetched

  datatype DifferenceError = DifferenceNotFound | StatusInvalid

  type StatementKey = (string, int)

  const PAGE_SIZE := 50

  /** A statement as it is read back: with its first items only. */
  function FirstPage(s: Statement): Statement {
    s.(items := s.items[..if |s.items| < PAGE_SIZE then |s.items| else PAGE_SIZE])
  }

  function AmountOf(): (f: Item -> int)
    ensures forall item :: f(item) == item.amount
  {
    (item: Item) => item.amount
  }

  function NewRow(id: nat, day: int, channel: string, diff: Diff): DiffRow {
    DiffRow(id, day, channel, diff, Pending, None, None, None)
  }

  function NewRows(first: nat, day: int, channel: string, diffs: seq<Diff>): (r: seq<DiffRow>)
    ensures |r| == |diffs|
    ensures forall k :: 0 <= k < |r| ==>
              r[k] == DiffRow(first + k, day, channel, diffs[k], Pending, None, None, None)
  {
    seq(|diffs|, k requires 0 <= k < |diffs| => NewRow(first + k, day, channel, diffs[k]))
  }

  /** The rows that a delete by date and channel keeps, in their order. */
  function Others(rows: seq<DiffRow>, day: int, channel: string): (r: seq<DiffRow>)
    ensures forall row :: row in r <==> row in rows && !(row.day == day && row.channel == channel)
  {
    if rows == [] then []
    else
      var row := rows[|rows| - 1];
      assert rows == rows[..|rows| - 1] + [row];
      Others(rows[..|rows| - 1], day, channel) + if row.day == day && row.channel == channel then [] else [row]
  }

  ghost predicate DistinctIds(rows: seq<DiffRow>, next: nat) {
    && (forall i :: 0 <= i < |rows| ==> rows[i].id < next)
    && forall i, j :: 0 <= i < j < |rows| ==> rows[i].id != rows[j].id
  }

  lemma {:induction false} OthersKeepIds(rows: seq<DiffRow>, day: int, channel: string, next: nat)
    requires DistinctIds(rows, next)
    ensures DistinctIds(Others(rows, day, channel), next)
  {
    if rows != [] {
      var n := |rows| - 1;
      var front := Others(rows[..n], day, channel);
      OthersKeepIds(rows[..n], day, channel, next);
      forall i | 0 <= i < |front| ensures front[i].id != rows[n].id {
        assert front[i] in rows[..n];
        var j :| 0 <= j < n && rows[j] == front[i];
      }
    }
  }

  // ---------------------------------------------------------------- the loops

  /** Builds the items of a statement, first from the transactions, then from the withdrawals. */
  method BuildItems(txs: seq<TxOrder>, ws: seq<Withdrawal>) returns (items: seq<Item>)
    requires forall o :: o in txs ==> o.channelOrderNo.Some?
    requires forall w :: w in ws ==> w.channelOrderNo.Some?
    ensures items == ItemsOf(txs, ws)
    ensures |items| == |txs| + |ws|
    ensures forall k :: 0 <= k < |txs| ==>
              && items[k].channelOrderNo == txs[k].channelOrderNo.value && items[k].matchStatus == Unmatched
              && items[k].amount == txs[k].amount && items[k].fee == txs[k].fee
              && (items[k].itemType.PayoutItem? <==> txs[k].txType.WITHDRAW?)
              && (items[k].itemType.RefundItem? <==> txs[k].txType.REFUND?)
    ensures forall k :: 0 <= k < |ws| ==>
              items[|txs| + k] ==
              Item(ws[k].channelOrderNo.value, PayoutItem, ws[k].actualAmount, ws[k].fee, Unmatched)
  {
    items := [];
    for i := 0 to |txs|
      invariant |items| == i && forall k :: 0 <= k < i ==> items[k] == TxItem(txs[k])
    {
      items := items + [TxItem(txs[i])];
    }
    for i := 0 to |ws|
      invariant |items| == |txs| + i
      invariant forall k :: 0 <= k < |txs| ==> items[k] == TxItem(txs[k])
      invariant forall k :: |txs| <= k < |items| ==> items[k] == WithdrawalItem(ws[k - |txs|])
    {
      items := items + [WithdrawalItem(ws[i])];
    }
    var spec := ItemsOf(txs, ws);
    forall k | |txs| <= k < |items| ensures items[k] == spec[k] {
      assert spec[|txs| + (k - |txs|)] == WithdrawalItem(ws[k - |txs|]);
    }
  }

  method TotalAmount(items: seq<Item>) returns (total: int)
    ensures total == Sum(items, AmountOf())
  {
    total := 0;
    for i := 0 to |items|
      invariant total == Sum(items[..i], AmountOf())
    {
      total := total + items[i].amount;
      assert items[..i + 1] == items[..i] + [items[i]];
      SumAppend(items[..i], items[i], AmountOf());
    }
    assert items[..|items|] == items;
  }

  /** Compares one item with the platform order its number leads to. */
  method CompareItem(p: Platform, item: Item) returns (mark: MatchStatus, diffs: seq<Diff>)
    ensures mark == Mark(p, item) && diffs == ItemDiff(p, item)
  {
    var tx := FindTx(p.txOrders, item.channelOrderNo);
    var withdrawal := if tx.Some? then None else FindWithdrawal(p.withdrawals, item.channelOrderNo);
    if tx.None? && withdrawal.None? {
      return Unmatched, [Diff(Some(item.channelOrderNo), None, MissingInPlatform, item.amount)];
    }
    var orderNo := if tx.Some? then tx.value.orderNo else withdrawal.value.orderNo;
    var source := if tx.Some? then FromTransaction else FromWithdrawal;
    var platformAmount := if tx.Some? then tx.value.amount else withdrawal.value.actualAmount;
    var platformFee := if tx.Some? then tx.value.fee else withdrawal.value.fee;
    if platformAmount == item.amount && platformFee == item.fee {
      return Matched(orderNo, source), [];
    }
    return Mismatched(orderNo, source),
           [Diff(Some(item.channelOrderNo), Some(orderNo), AmountMismatch, Abs(item.amount - platformAmount))];
  }

  /** The forward pass over the items of a statement. */
  method CompareItems(p: Platform, items: seq<Item>)
    returns (marked: seq<Item>, diffs: seq<Diff>, matched: nat, mismatched: nat, unmatched: nat)
    ensures marked == Marked(p, items)
    ensures diffs == ItemDiffs(p, items)
    ensures Tally(matched, mismatched, unmatched) == Count(p, items)
  {
    hide Lookup, Agrees, ItemDiff;
    marked, diffs, matched, mismatched, unmatched := [], [], 0, 0, 0;
    for i := 0 to |items|
      invariant |marked| == i && forall k :: 0 <= k < i ==> marked[k] == items[k].(matchStatus := Mark(p, items[k]))
      invariant diffs == ItemDiffs(p, items[..i])
      invariant Tally(matched, mismatched, unmatched) == Count(p, items[..i])
    {
      assert items[..i + 1][..i] == items[..i];
      var mark, found := CompareItem(p, items[i]);
      marked := marked + [items[i].(matchStatus := mark)];
      diffs := diffs + found;
      match mark {
        case Unmatched => unmatched := unmatched + 1;
        case Matched(_, _) => matched := matched + 1;
        case Mismatched(_, _) => mismatched := mismatched + 1;
      }
    }
    assert items[..|items|] == items;
  }

  /** The reverse pass: the orders of the day whose number is not in the statement's set of numbers. */
  method FindMissing(txs: seq<TxOrder>, ws: seq<Withdrawal>, items: seq<Item>) returns (diffs: seq<Diff>)
    requires forall o :: o in txs ==> o.channelOrderNo.Some?
    requires forall w :: w in ws ==> w.channelOrderNo.Some?
    ensures diffs == TxsMissing(items, txs) + WithdrawalsMissing(items, ws)
  {
    var numbers := set k | 0 <= k < |items| :: items[k].channelOrderNo;
    assert forall no :: no in numbers <==> Listed(items, no);
    diffs := [];
    for i := 0 to |txs|
      invariant diffs == TxsMissing(items, txs[..i])
    {
      var o := txs[i];
      assert txs[..i + 1][..i] == txs[..i];
      if o.channelOrderNo.value != "" && o.channelOrderNo.value !in numbers {
        diffs := diffs + [Diff(None, Some(o.orderNo), MissingInChannel, o.amount)];
      }
    }
    assert txs[..|txs|] == txs;
    for i := 0 to |ws|
      invariant diffs == TxsMissing(items, txs) + WithdrawalsMissing(items, ws[..i])
    {
      var w := ws[i];
      assert ws[..i + 1][..i] == ws[..i];
      if w.channelOrderNo.value != "" && w.channelOrderNo.value !in numbers {
        diffs := diffs + [Diff(None, Some(w.orderNo), MissingInChannel, w.actualAmount)];
      }
    }
    assert ws[..|ws|] == ws;
  }

  // ---------------------------------------------------------------- the service

  class ChannelReconciliationService {
    var platform: Platform
    var statements: map<StatementKey, Statement>
    var differences: seq<DiffRow>
    var nextId: nat

    ghost predicate Valid() reads this {
      DistinctIds(differences, nextId)
    }

    constructor (p: Platform)
      ensures Valid() && platform == p && statements == map[] && differences == []
    {
      platform := p;
      statements := map[];
      differences := [];
      nextId := 0;
    }

    /**
     Fetches the statement of a channel and a day. A failed fetch may be repeated, unless it leaves the statement
     FETCHED: when reading the result back fails, which the handler does not see; when a first fetch fails after its
     row was written, because the handler's insert then violates the row's unique key; and when the database is still
     `down` for the handler.
    */
    method Fetch(channel: string, day: int, fault: Fault, down: bool) returns (r: Result<Statement, FetchError>)
      requires Valid()
      modifies this`statements, this`differences
      ensures Valid()
      ensures forall key :: key != (channel, day) ==>
                (key in statements <==> key in old(statements))
                && (key in statements ==> statements[key] == old(statements)[key])
      ensures var refused := (channel, day) in old(statements) && old(statements)[(channel, day)].status == Fetched;
              var repeated := (channel, day) in old(statements);
              var items := FetchedItems(platform, channel, day);
              && (r == Err(AlreadyFetched) <==> refused && fault != AtLookup)
              && (r.Ok? <==> !refused && !Made(fault, repeated, items))
              && (r == Err(UniqueConflict) <==> !repeated && fault == AtItemCreate && items != [] && !down)
              && (r == Err(FetchFailed) <==>
                    !refused && !down && Made(fault, repeated, items)
                    && (fault == AtUpsert || (repeated && fault in {AtItemDelete, AtDifferenceDelete, AtItemCreate})))
              && (refused || fault == AtLookup || fault == AtOrders ==>
                    statements == old(statements) && differences == old(differences))
      ensures r.Ok? ==> (var items := FetchedItems(platform, channel, day);
                         && (channel, day) in statements && r.value == FirstPage(statements[(channel, day)])
                         && r.value.items == items[..if |items| < 50 then |items| else 50]
                         && statements[(channel, day)] == Statement(Fetched, |items|, Sum(items, AmountOf()), items)
                         && differences == if (channel, day) in old(statements)
                                           then Others(old(differences), day, channel) else old(differences))
      ensures r.Err? && r != Err(AlreadyFetched) && fault != AtLookup && fault != AtOrders ==>
                (var repeated := (channel, day) in old(statements);
                 && ((channel, day) in statements <==> repeated || fault != AtUpsert || !down)
                 && ((channel, day) in statements ==>
                       (statements[(channel, day)].status == Fetched <==>
                          fault == AtReadBack || (fault != AtUpsert && (down || !repeated))))
                 && differences == if repeated && (fault == AtItemCreate || fault == AtReadBack)
                                   then Others(old(differences), day, channel) else old(differences))
      ensures r.Err? && r != Err(AlreadyFetched) && fault == AtUpsert && (channel, day) in statements ==>
                (var was := if (channel, day) in old(statements) then old(statements)[(channel, day)]
                            else Statement(Failed, 0, 0, []);
                 statements[(channel, day)] == was)
      ensures r.Err? && r != Err(AlreadyFetched)
              && fault in {AtItemDelete, AtDifferenceDelete, AtItemCreate, AtReadBack}
              ==> (var items := FetchedItems(platform, channel, day);
                   && (channel, day) in statements
                   && statements[(channel, day)] ==
                      Statement(statements[(channel, day)].status, |items|, Sum(items, AmountOf()),
                                if fault == AtReadBack then items
                                else if fault == AtItemDelete then old(statements)[(channel, day)].items else []))
    {
      hide Sum, TxSelected, WithdrawalsSelected, ItemsOf, Others;
      var key := (channel, day);
      if fault == AtLookup {
        return Err(DatabaseError);
      }
      var existing := key in statements;
      if existing && statements[key].status == Fetched {
        return Err(AlreadyFetched);
      }
      if fault == AtOrders {
        return Err(DatabaseError);
      }
      var txs := TxSelected(platform.txOrders, channel, day);
      var ws := WithdrawalsSelected(platform.withdrawals, channel, day);
      var items := BuildItems(txs, ws);
      var totalAmount := TotalAmount(items);
      var failed := WriteStatement(key, items, totalAmount, fault);
      if failed {
        var e := HandleFailure(key, existing, down);
        r := Err(e);
      } else if fault == AtReadBack {
        r := Err(DatabaseError);
      } else {
        r := Ok(FirstPage(statements[key]));
      }
    }
    /** The writes of a fetch up to the failing one, if any. */
    method WriteStatement(key: StatementKey, items: seq<Item>, totalAmount: int, fault: Fault) returns (failed: bool)
      requires Valid()
      modifies this`statements, this`differences
      ensures Valid()
      ensures failed <==> fault != AtLookup && fault != AtOrders && fault != AtReadBack
                          && Made(fault, key in old(statements), items)
      ensures failed && fault == AtUpsert ==> statements == old(statements)
      ensures !(failed && fault == AtUpsert) ==>
                statements == old(statements)[key := Statement(Fetched, |items|, totalAmount,
                  if !failed then items
                  else if fault == AtItemDelete && key in old(statements) then old(statements)[key].items else [])]
      ensures differences == if key in old(statements) && (!failed || fault == AtItemCreate)
                             then Others(old(differences), key.1, key.0) else old(differences)
    {
      hide Others;
      if fault == AtUpsert {
        return true;
      }
      var existing := key in statements;
      var oldItems := if existing then statements[key].items else [];
      statements := statements[key := Statement(Fetched, |items|, totalAmount, oldItems)];
      if existing {
        if fault == AtItemDelete {
          return true;
        }
        statements := statements[key := statements[key].(items := [])];
        if fault == AtDifferenceDelete {
          return true;
        }
        OthersKeepIds(differences, key.1, key.0, nextId);
        differences := Others(differences, key.1, key.0);
      }
      if |items| > 0 {
        if fault == AtItemCreate {
          return true;
        }
        statements := statements[key := statements[key].(items := items)];
      }
      failed := false;
    }

    /** The failure handler: it marks the statement it knew of before, or inserts a new one. */
    method HandleFailure(key: StatementKey, existing: bool, down: bool) returns (e: FetchError)
      requires existing ==> key in statements
      modifies this`statements
      ensures down ==> e == DatabaseError && statements == old(statements)
      ensures !down && existing ==>
                e == FetchFailed && statements == old(statements)[key := old(statements)[key].(status := Failed)]
      ensures !down && !existing && key in old(statements) ==> e == UniqueConflict && statements == old(statements)
      ensures !down && !existing && key !in old(statements) ==>
                e == FetchFailed && statements == old(statements)[key := Statement(Failed, 0, 0, [])]
    {
      if down {
        return DatabaseError;
      }
      if existing {
        statements := statements[key := statements[key].(status := Failed)];
        return FetchFailed;
      }
      if key in statements {
        return UniqueConflict;
      }
      statements := statements[key := Statement(Failed, 0, 0, [])];
      return FetchFailed;
    }

    /** Matches a fetched statement: the differences of its day and channel are replaced by the classification. */
    method Match(channel: string, day: int) returns (r: Result<Report, MatchError>)
      requires Valid()
      modifies this`statements, this`differences, this`nextId
      ensures Valid()
      ensures r == Err(StatementNotFound) <==> (channel, day) !in old(statements)
      ensures r == Err(StatementNotFetched) <==>
              (channel, day) in old(statements) && old(statements)[(channel, day)].status == Failed
      ensures r.Err? ==> statements == old(statements) && differences == old(differences)
      ensures r.Ok? ==> (channel, day) in statements
                        && (var items := statements[(channel, day)].items;
                            && r.value.matched == Sum(items, MatchedOne())
                            && r.value.mismatched == Sum(items, MismatchedOne()))
      ensures r.Ok? ==> forall k :: 0 <= k < |statements[(channel, day)].items| ==>
                var item := statements[(channel, day)].items[k];
                var found := Lookup(platform, item.channelOrderNo);
                && (item.matchStatus.Unmatched? <==> !Known(platform, item.channelOrderNo))
                && (item.matchStatus.Matched? <==>
                      found.Some? && found.value.amount == item.amount && found.value.fee == item.fee)
      ensures r.Ok? ==> (var items := old(statements)[(channel, day)].items;
                         var diffs := Differences(platform, items, channel, day);
                         && statements == old(statements)[(channel, day) :=
                              old(statements)[(channel, day)].(items := Marked(platform, items))]
                         && differences == Others(old(differences), day, channel)
                                           + NewRows(old(nextId), day, channel, diffs)
                         && Tally(r.value.matched, r.value.mismatched, r.value.unmatched) == Count(platform, items)
                         && r.value.matched + r.value.mismatched + r.value.unmatched == |items|
                         && r.value.missingInChannel == |MissingDiffs(platform, items, channel, day)|
                         && r.value.totalDifferences == |diffs|)
    {
      hide Sum, ItemDiffs, TxsMissing, WithdrawalsMissing, TxSelected, WithdrawalsSelected, Count, Marked, Others;
      var key := (channel, day);
      if key !in statements {
        return Err(StatementNotFound);
      }
      if statements[key].status != Fetched {
        return Err(StatementNotFetched);
      }
      var items := statements[key].items;
      OthersKeepIds(differences, day, channel, nextId);
      differences := Others(differences, day, channel);
      var marked, diffs, matched, mismatched, unmatched := CompareItems(platform, items);
      statements := statements[key := statements[key].(items := marked)];
      var missing := FindMissing(TxSelected(platform.txOrders, channel, day),
                                 WithdrawalsSelected(platform.withdrawals, channel, day), items);
      CountsAddUp(platform, items);
      CountsMarks(platform, items);
      forall k | 0 <= k < |items|
        ensures Mark(platform, items[k]) == Mark(platform, marked[k])
      {
        MarkMeans(platform, items[k]);
      }
      differences := differences + NewRows(nextId, day, channel, diffs + missing);
      nextId := nextId + |diffs + missing|;
      return Ok(Report(matched, mismatched, unmatched, |missing|, unmatched + mismatched + |missing|));
    }
  }
}
