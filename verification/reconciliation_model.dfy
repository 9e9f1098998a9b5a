/** Channel statements, platform orders, and the classification a match has to produce. */
module ReconciliationModel {
  import opened Prelude

  const DAY_MS := 86_400_000

  const SUCCESS := "SUCCESS"

  datatype TxType = RECHARGE | WITHDRAW | TRANSFER | PAYMENT | REFUND | RED_PACKET

  datatype ItemType = RechargeItem | PayoutItem | RefundItem

  datatype TxOrder = TxOrder(
    orderNo: string, txType: TxType, status: string, amount: int, fee: int,
    channel: Option<string>, channelOrderNo: Option<string>, completedAt: Option<int>)

  datatype Withdrawal = Withdrawal(
    orderNo: string, status: string, amount: int, fee: int, actualAmount: int,
    channel: string, channelOrderNo: Option<string>, reviewedAt: Option<int>)

  /** The platform's two order tables. */
  datatype Platform = Platform(txOrders: seq<TxOrder>, withdrawals: seq<Withdrawal>)

  datatype Source = FromTransaction | FromWithdrawal

  datatype MatchStatus =
    | Unmatched
    | Matched(orderNo: string, source: Source)
    | Mismatched(orderNo: string, source: Source)

  datatype Item = Item(channelOrderNo: string, itemType: ItemType, amount: int, fee: int, matchStatus: MatchStatus)

  datatype StatementStatus = Fetched | Failed

  datatype Statement = Statement(status: StatementStatus, totalCount: nat, totalAmount: int, items: seq<Item>)

  datatype DiffType = MissingInPlatform | AmountMismatch | MissingInChannel

  /** What a difference row says, apart from its id and its progress in the workflow. */
  datatype Diff = Diff(
    channelOrderNo: Option<string>, platformOrderNo: Option<string>, diffType: DiffType, amount: int)

  datatype Found = Found(orderNo: string, source: Source, amount: int, fee: int)

  /** The closed UTC interval of one day, to the millisecond. */
  predicate OnDay(at: Option<int>, day: int): (r: bool)
    ensures r <==> at.Some? && at.value / 86_400_000 == day
  {
    at.Some? && day * DAY_MS <= at.value <= day * DAY_MS + 86_399_999
  }

  predicate TxInRange(o: TxOrder, channel: string, day: int) {
    o.channel == Some(channel) && OnDay(o.completedAt, day) && o.status == SUCCESS && o.channelOrderNo.Some?
  }

  predicate WithdrawalInRange(w: Withdrawal, channel: string, day: int) {
    w.channel == channel && OnDay(w.reviewedAt, day) && w.status == SUCCESS && w.channelOrderNo.Some?
  }

  function TxSelected(s: seq<TxOrder>, channel: string, day: int): (r: seq<TxOrder>)
    ensures forall o :: o in r <==> o in s && TxInRange(o, channel, day)
  {
    if s == [] then []
    else
      var o := s[|s| - 1];
      assert s == s[..|s| - 1] + [o];
      TxSelected(s[..|s| - 1], channel, day) + if TxInRange(o, channel, day) then [o] else []
  }

  function WithdrawalsSelected(s: seq<Withdrawal>, channel: string, day: int): (r: seq<Withdrawal>)
    ensures forall w :: w in r <==> w in s && WithdrawalInRange(w, channel, day)
  {
    if s == [] then []
    else
      var w := s[|s| - 1];
      assert s == s[..|s| - 1] + [w];
      WithdrawalsSelected(s[..|s| - 1], channel, day) + if WithdrawalInRange(w, channel, day) then [w] else []
  }

  /** The queries keep every order of the channel and the day as often as the table holds it, and no other. */
  lemma {:induction false} SelectedExactly(p: Platform, channel: string, day: int, o: TxOrder, w: Withdrawal)
    ensures multiset(TxSelected(p.txOrders, channel, day))[o] ==
            if TxOfDay(o, channel, day) then multiset(p.txOrders)[o] else 0
    ensures multiset(WithdrawalsSelected(p.withdrawals, channel, day))[w] ==
            if WithdrawalOfDay(w, channel, day) then multiset(p.withdrawals)[w] else 0
  {
    TxOccurs(p.txOrders, channel, day, o);
    WithdrawalOccurs(p.withdrawals, channel, day, w);
  }

  lemma {:induction false} TxOccurs(s: seq<TxOrder>, channel: string, day: int, o: TxOrder)
    ensures multiset(TxSelected(s, channel, day))[o] == if TxInRange(o, channel, day) then multiset(s)[o] else 0
  {
    if s != [] {
      var n := |s| - 1;
      TxOccurs(s[..n], channel, day, o);
      assert s == s[..n] + [s[n]];
    }
  }

  lemma {:induction false} WithdrawalOccurs(s: seq<Withdrawal>, channel: string, day: int, w: Withdrawal)
    ensures multiset(WithdrawalsSelected(s, channel, day))[w] ==
            if WithdrawalInRange(w, channel, day) then multiset(s)[w] else 0
  {
    if s != [] {
      var n := |s| - 1;
      WithdrawalOccurs(s[..n], channel, day, w);
      assert s == s[..n] + [s[n]];
    }
  }

  // ---------------------------------------------------------------- fetching

  function ItemTypeOf(t: TxType): (r: ItemType)
    ensures r.PayoutItem? <==> t.WITHDRAW?
    ensures r.RefundItem? <==> t.REFUND?
  {
    match t
    case RECHARGE => RechargeItem
    case WITHDRAW => PayoutItem
    case REFUND => RefundItem
    case _ => RechargeItem
  }

  function TxItem(o: TxOrder): Item
    requires o.channelOrderNo.Some?
  {
    Item(o.channelOrderNo.value, ItemTypeOf(o.txType), o.amount, o.fee, Unmatched)
  }

  function WithdrawalItem(w: Withdrawal): Item
    requires w.channelOrderNo.Some?
  {
    Item(w.channelOrderNo.value, PayoutItem, w.actualAmount, w.fee, Unmatched)
  }

  function ItemsOf(txs: seq<TxOrder>, ws: seq<Withdrawal>): (r: seq<Item>)
    requires forall o :: o in txs ==> o.channelOrderNo.Some?
    requires forall w :: w in ws ==> w.channelOrderNo.Some?
    ensures |r| == |txs| + |ws|
    ensures forall k :: 0 <= k < |txs| ==> r[k] == TxItem(txs[k])
    ensures forall k :: 0 <= k < |ws| ==> r[|txs| + k] == WithdrawalItem(ws[k])
  {
    seq(|txs|, k requires 0 <= k < |txs| => TxItem(txs[k]))
    + seq(|ws|, k requires 0 <= k < |ws| => WithdrawalItem(ws[k]))
  }

  /** The items of a statement fetched for a channel and a day. */
  function FetchedItems(p: Platform, channel: string, day: int): seq<Item> {
    ItemsOf(TxSelected(p.txOrders, channel, day), WithdrawalsSelected(p.withdrawals, channel, day))
  }

  // ---------------------------------------------------------------- matching

  function FindTx(s: seq<TxOrder>, no: string): (r: Option<TxOrder>)
    ensures r.None? <==> forall o :: o in s ==> o.channelOrderNo != Some(no)
    ensures r.Some? ==> r.value in s && r.value.channelOrderNo == Some(no)
  {
    if s == [] then None else if s[0].channelOrderNo == Some(no) then Some(s[0]) else FindTx(s[1..], no)
  }

  function FindWithdrawal(s: seq<Withdrawal>, no: string): (r: Option<Withdrawal>)
    ensures r.None? <==> forall w :: w in s ==> w.channelOrderNo != Some(no)
    ensures r.Some? ==> r.value in s && r.value.channelOrderNo == Some(no)
  {
    if s == [] then None else if s[0].channelOrderNo == Some(no) then Some(s[0]) else FindWithdrawal(s[1..], no)
  }

  /** The order an item is compared with: of any channel, date and status, transactions before withdrawals. */
  function Lookup(p: Platform, no: string): Option<Found> {
    var tx := FindTx(p.txOrders, no);
    if tx.Some? then Some(Found(tx.value.orderNo, FromTransaction, tx.value.amount, tx.value.fee))
    else
      var w := FindWithdrawal(p.withdrawals, no);
      if w.Some? then Some(Found(w.value.orderNo, FromWithdrawal, w.value.actualAmount, w.value.fee)) else None
  }

  predicate Agrees(found: Found, item: Item) {
    found.amount == item.amount && found.fee == item.fee
  }

  function Mark(p: Platform, item: Item): MatchStatus {
    var found := Lookup(p, item.channelOrderNo);
    if found.None? then Unmatched
    else if Agrees(found.value, item) then Matched(found.value.orderNo, found.value.source)
    else Mismatched(found.value.orderNo, found.value.source)
  }

  function Marked(p: Platform, items: seq<Item>): (r: seq<Item>)
    ensures |r| == |items|
    ensures forall k :: 0 <= k < |r| ==> r[k] == items[k].(matchStatus := Mark(p, items[k]))
  {
    seq(|items|, k requires 0 <= k < |items| => items[k].(matchStatus := Mark(p, items[k])))
  }

  function Abs(x: int): (r: int)
    ensures r >= 0 && (r == x || r == -x)
  {
    if x < 0 then -x else x
  }

  function ItemDiff(p: Platform, item: Item): seq<Diff> {
    var found := Lookup(p, item.channelOrderNo);
    if found.None? then [Diff(Some(item.channelOrderNo), None, MissingInPlatform, item.amount)]
    else if Agrees(found.value, item) then []
    else [Diff(Some(item.channelOrderNo), Some(found.value.orderNo), AmountMismatch,
               Abs(item.amount - found.value.amount))]
  }

  function ItemDiffs(p: Platform, items: seq<Item>): seq<Diff> {
    if items == [] then [] else ItemDiffs(p, items[..|items| - 1]) + ItemDiff(p, items[|items| - 1])
  }

  /** Some item of the statement carries this number. */
  predicate Listed(items: seq<Item>, no: string) {
    exists k :: 0 <= k < |items| && items[k].channelOrderNo == no
  }

  function TxMissing(items: seq<Item>, o: TxOrder): seq<Diff>
    requires o.channelOrderNo.Some?
  {
    if o.channelOrderNo.value != "" && !Listed(items, o.channelOrderNo.value)
    then [Diff(None, Some(o.orderNo), MissingInChannel, o.amount)]
    else []
  }

  function TxsMissing(items: seq<Item>, s: seq<TxOrder>): seq<Diff>
    requires forall o :: o in s ==> o.channelOrderNo.Some?
  {
    if s == [] then [] else TxsMissing(items, s[..|s| - 1]) + TxMissing(items, s[|s| - 1])
  }

  function WithdrawalMissing(items: seq<Item>, w: Withdrawal): seq<Diff>
    requires w.channelOrderNo.Some?
  {
    if w.channelOrderNo.value != "" && !Listed(items, w.channelOrderNo.value)
    then [Diff(None, Some(w.orderNo), MissingInChannel, w.actualAmount)]
    else []
  }

  function WithdrawalsMissing(items: seq<Item>, s: seq<Withdrawal>): seq<Diff>
    requires forall w :: w in s ==> w.channelOrderNo.Some?
  {
    if s == [] then [] else WithdrawalsMissing(items, s[..|s| - 1]) + WithdrawalMissing(items, s[|s| - 1])
  }

  function MissingDiffs(p: Platform, items: seq<Item>, channel: string, day: int): seq<Diff> {
    TxsMissing(items, TxSelected(p.txOrders, channel, day))
    + WithdrawalsMissing(items, WithdrawalsSelected(p.withdrawals, channel, day))
  }

  /** All differences of a statement, in the order they are written. */
  function Differences(p: Platform, items: seq<Item>, channel: string, day: int): seq<Diff> {
    ItemDiffs(p, items) + MissingDiffs(p, items, channel, day)
  }

  datatype Tally = Tally(matched: nat, mismatched: nat, unmatched: nat)

  function Count(p: Platform, items: seq<Item>): Tally {
    if items == [] then Tally(0, 0, 0)
    else
      var t := Count(p, items[..|items| - 1]);
      match Mark(p, items[|items| - 1])
      case Matched(_, _) => t.(matched := t.matched + 1)
      case Mismatched(_, _) => t.(mismatched := t.mismatched + 1)
      case Unmatched => t.(unmatched := t.unmatched + 1)
  }

  // ---------------------------------------------------------------- the classification

  /** Some platform order, whatever its channel, date or status, carries the number. */
  ghost predicate Known(p: Platform, no: string) {
    (exists o :: o in p.txOrders && o.channelOrderNo == Some(no))
    || exists w :: w in p.withdrawals && w.channelOrderNo == Some(no)
  }

  ghost predicate ReportsUnknown(p: Platform, items: seq<Item>, d: Diff) {
    exists k :: 0 <= k < |items| && !Known(p, items[k].channelOrderNo)
      && d == Diff(Some(items[k].channelOrderNo), None, MissingInPlatform, items[k].amount)
  }

  ghost predicate ReportsMismatch(p: Platform, items: seq<Item>, d: Diff) {
    exists k :: 0 <= k < |items| && Known(p, items[k].channelOrderNo)
      && var found := Lookup(p, items[k].channelOrderNo);
         found.Some? && (found.value.amount != items[k].amount || found.value.fee != items[k].fee)
         && d == Diff(Some(items[k].channelOrderNo), Some(found.value.orderNo), AmountMismatch,
                      Distance(items[k].amount, found.value.amount))
  }

  /** By how much two amounts differ, whichever is the larger. */
  ghost function Distance(x: int, y: int): int { if x > y then x - y else y - x }

  /** A successful, numbered order of the channel, completed on that day of 86 400 000 milliseconds. */
  ghost predicate TxOfDay(o: TxOrder, channel: string, day: int) {
    && o.channel == Some(channel) && o.status == "SUCCESS" && o.channelOrderNo.Some?
    && o.completedAt.Some? && o.completedAt.value / 86_400_000 == day
  }

  ghost predicate WithdrawalOfDay(w: Withdrawal, channel: string, day: int) {
    && w.channel == channel && w.status == "SUCCESS" && w.channelOrderNo.Some?
    && w.reviewedAt.Some? && w.reviewedAt.value / 86_400_000 == day
  }

  /** The order has a number, and no item of the statement carries it. */
  ghost predicate Unlisted(items: seq<Item>, no: Option<string>) {
    no.Some? && no.value != "" && forall k :: 0 <= k < |items| ==> items[k].channelOrderNo != no.value
  }

  ghost predicate ReportsMissing(p: Platform, items: seq<Item>, channel: string, day: int, d: Diff) {
    || (exists o :: o in p.txOrders && TxOfDay(o, channel, day) && Unlisted(items, o.channelOrderNo)
                    && d == Diff(None, Some(o.orderNo), MissingInChannel, o.amount))
    || exists w :: w in p.withdrawals && WithdrawalOfDay(w, channel, day) && Unlisted(items, w.channelOrderNo)
                   && d == Diff(None, Some(w.orderNo), MissingInChannel, w.actualAmount)
  }

  lemma LookupIff(p: Platform, no: string)
    ensures Lookup(p, no).Some? <==> Known(p, no)
  {
  }

  /**
   The order found carries the number; a transaction goes before any withdrawal, which counts with what it paid out.
  */
  lemma LookupFinds(p: Platform, no: string)
    requires Known(p, no)
    ensures var found := Lookup(p, no);
            && found.Some?
            && (found.value.source == FromTransaction <==> exists o :: o in p.txOrders && o.channelOrderNo == Some(no))
            && (found.value.source == FromTransaction ==>
                  exists o :: o in p.txOrders && o.channelOrderNo == Some(no)
                              && found.value == Found(o.orderNo, FromTransaction, o.amount, o.fee))
            && (found.value.source == FromWithdrawal ==>
                  exists w :: w in p.withdrawals && w.channelOrderNo == Some(no)
                              && found.value == Found(w.orderNo, FromWithdrawal, w.actualAmount, w.fee))
  {
    var tx := FindTx(p.txOrders, no);
    if tx.Some? {
      assert tx.value in p.txOrders;
    } else {
      assert FindWithdrawal(p.withdrawals, no).value in p.withdrawals;
    }
  }

  lemma {:induction false} ItemDiffsExactly(p: Platform, items: seq<Item>, d: Diff)
    ensures d in ItemDiffs(p, items) <==> exists k :: 0 <= k < |items| && d in ItemDiff(p, items[k])
  {
    hide ItemDiff;
    if items != [] {
      var n := |items| - 1;
      ItemDiffsExactly(p, items[..n], d);
      if k :| 0 <= k < n && d in ItemDiff(p, items[..n][k]) { assert d in ItemDiff(p, items[k]); }
      if k :| 0 <= k < |items| && d in ItemDiff(p, items[k]) && k < n { assert d in ItemDiff(p, items[..n][k]); }
    }
  }

  lemma {:induction false} TxsMissingExactly(items: seq<Item>, s: seq<TxOrder>, d: Diff)
    requires forall o :: o in s ==> o.channelOrderNo.Some?
    ensures d in TxsMissing(items, s) <==> exists o :: o in s && d in TxMissing(items, o)
  {
    hide TxMissing;
    if s != [] {
      var n := |s| - 1;
      TxsMissingExactly(items, s[..n], d);
      assert s == s[..n] + [s[n]];
    }
  }

  lemma {:induction false} WithdrawalsMissingExactly(items: seq<Item>, s: seq<Withdrawal>, d: Diff)
    requires forall w :: w in s ==> w.channelOrderNo.Some?
    ensures d in WithdrawalsMissing(items, s) <==> exists w :: w in s && d in WithdrawalMissing(items, w)
  {
    hide WithdrawalMissing;
    if s != [] {
      var n := |s| - 1;
      WithdrawalsMissingExactly(items, s[..n], d);
      assert s == s[..n] + [s[n]];
    }
  }

  lemma ItemReports(p: Platform, items: seq<Item>, d: Diff)
    ensures d in ItemDiffs(p, items) <==> ReportsUnknown(p, items, d) || ReportsMismatch(p, items, d)
  {
    hide Lookup, Known, ItemDiffs;
    ItemDiffsExactly(p, items, d);
    forall k | 0 <= k < |items|
      ensures Lookup(p, items[k].channelOrderNo).Some? <==> Known(p, items[k].channelOrderNo)
    {
      LookupIff(p, items[k].channelOrderNo);
    }
    if k :| 0 <= k < |items| && d in ItemDiff(p, items[k]) {
      assert d == ItemDiff(p, items[k])[0];
    }
    if ReportsUnknown(p, items, d) {
      var k :| 0 <= k < |items| && !Known(p, items[k].channelOrderNo)
        && d == Diff(Some(items[k].channelOrderNo), None, MissingInPlatform, items[k].amount);
      assert d in ItemDiff(p, items[k]);
    }
    if ReportsMismatch(p, items, d) {
      var k :| 0 <= k < |items| && Known(p, items[k].channelOrderNo)
        && var found := Lookup(p, items[k].channelOrderNo);
           found.Some? && (found.value.amount != items[k].amount || found.value.fee != items[k].fee)
           && d == Diff(Some(items[k].channelOrderNo), Some(found.value.orderNo), AmountMismatch,
                        Distance(items[k].amount, found.value.amount));
      assert d in ItemDiff(p, items[k]);
    }
  }

  lemma MissingReports(p: Platform, items: seq<Item>, channel: string, day: int, d: Diff)
    ensures d in MissingDiffs(p, items, channel, day) <==> ReportsMissing(p, items, channel, day, d)
  {
    hide OnDay, TxsMissing, WithdrawalsMissing, TxSelected, WithdrawalsSelected;
    var txs, ws := TxSelected(p.txOrders, channel, day), WithdrawalsSelected(p.withdrawals, channel, day);
    TxsMissingExactly(items, txs, d);
    WithdrawalsMissingExactly(items, ws, d);
    if o :| o in txs && d in TxMissing(items, o) {
      assert d == TxMissing(items, o)[0];
    }
    if w :| w in ws && d in WithdrawalMissing(items, w) {
      assert d == WithdrawalMissing(items, w)[0];
    }
  }

  /**
   The differences are exactly the items without an order, the items whose order has another amount or fee, and the
   orders of that channel and day that the statement does not list.
  */
  lemma DifferencesExactly(p: Platform, items: seq<Item>, channel: string, day: int, d: Diff)
    ensures d in Differences(p, items, channel, day) <==>
            || ReportsUnknown(p, items, d)
            || ReportsMismatch(p, items, d)
            || ReportsMissing(p, items, channel, day, d)
  {
    hide ItemDiffs, MissingDiffs, ReportsUnknown, ReportsMismatch, ReportsMissing;
    ItemReports(p, items, d);
    MissingReports(p, items, channel, day, d);
  }

  // How often each row occurs: one row for each reason to write it.

  ghost predicate ItemGives(p: Platform, x: Item, d: Diff) {
    var found := Lookup(p, x.channelOrderNo);
    if found.None? then d == Diff(Some(x.channelOrderNo), None, MissingInPlatform, x.amount)
    else
      && (found.value.amount != x.amount || found.value.fee != x.fee)
      && d == Diff(Some(x.channelOrderNo), Some(found.value.orderNo), AmountMismatch,
                   Distance(x.amount, found.value.amount))
  }

  ghost predicate TxGives(items: seq<Item>, channel: string, day: int, o: TxOrder, d: Diff) {
    && TxOfDay(o, channel, day) && Unlisted(items, o.channelOrderNo)
    && d == Diff(None, Some(o.orderNo), MissingInChannel, o.amount)
  }

  ghost predicate WithdrawalGives(items: seq<Item>, channel: string, day: int, w: Withdrawal, d: Diff) {
    && WithdrawalOfDay(w, channel, day) && Unlisted(items, w.channelOrderNo)
    && d == Diff(None, Some(w.orderNo), MissingInChannel, w.actualAmount)
  }

  ghost function ItemReasons(p: Platform, d: Diff): Item -> int { (x: Item) => if ItemGives(p, x, d) then 1 else 0 }

  ghost function TxReasons(items: seq<Item>, channel: string, day: int, d: Diff): TxOrder -> int {
    (o: TxOrder) => if TxGives(items, channel, day, o, d) then 1 else 0
  }

  ghost function WithdrawalReasons(items: seq<Item>, channel: string, day: int, d: Diff): Withdrawal -> int {
    (w: Withdrawal) => if WithdrawalGives(items, channel, day, w, d) then 1 else 0
  }

  lemma ItemGivesOne(p: Platform, x: Item, d: Diff)
    ensures multiset(ItemDiff(p, x))[d] == ItemReasons(p, d)(x)
  {
    hide Lookup;
  }

  lemma {:induction false} ItemsGive(p: Platform, items: seq<Item>, d: Diff)
    ensures multiset(ItemDiffs(p, items))[d] == Sum(items, ItemReasons(p, d))
  {
    hide Lookup, ItemDiff, ItemGives;
    if items != [] {
      ItemsGive(p, items[..|items| - 1], d);
      ItemGivesOne(p, items[|items| - 1], d);
    }
  }

  lemma TxsGiveOne(items: seq<Item>, front: seq<TxOrder>, o: TxOrder, channel: string, day: int, d: Diff)
    requires (forall x :: x in front ==> x.channelOrderNo.Some?) && TxInRange(o, channel, day)
    ensures multiset(TxsMissing(items, front + [o]))[d] ==
            multiset(TxsMissing(items, front))[d] + TxReasons(items, channel, day, d)(o)
  {
    hide OnDay;
    assert (front + [o])[..|front|] == front;
  }

  lemma TxsGiveStep(items: seq<Item>, front: seq<TxOrder>, o: TxOrder, channel: string, day: int, d: Diff)
    requires forall x :: x in front ==> x.channelOrderNo.Some?
    ensures multiset(TxsMissing(items, if TxInRange(o, channel, day) then front + [o] else front))[d] ==
            multiset(TxsMissing(items, front))[d] + TxReasons(items, channel, day, d)(o)
  {
    hide Listed, TxsMissing;
    if TxInRange(o, channel, day) {
      TxsGiveOne(items, front, o, channel, day, d);
    }
  }

  lemma {:induction false} TxsGive(items: seq<Item>, s: seq<TxOrder>, channel: string, day: int, d: Diff)
    ensures multiset(TxsMissing(items, TxSelected(s, channel, day)))[d] ==
            Sum(s, TxReasons(items, channel, day, d))
  {
    hide TxsMissing, TxReasons, OnDay;
    if s == [] {
      TxsGiveNone(items, channel, day, d);
    } else {
      var n := |s| - 1;
      TxsGive(items, s[..n], channel, day, d);
      TxsGiveStep(items, TxSelected(s[..n], channel, day), s[n], channel, day, d);
      assert TxSelected(s[..n], channel, day) + [] == TxSelected(s[..n], channel, day);
    }
  }

  lemma TxsGiveNone(items: seq<Item>, channel: string, day: int, d: Diff)
    ensures TxsMissing(items, TxSelected([], channel, day)) == []
    ensures Sum([], TxReasons(items, channel, day, d)) == 0
  {
  }

  lemma WithdrawalsGiveOne(items: seq<Item>, front: seq<Withdrawal>, w: Withdrawal, channel: string, day: int, d: Diff)
    requires (forall x :: x in front ==> x.channelOrderNo.Some?) && WithdrawalInRange(w, channel, day)
    ensures multiset(WithdrawalsMissing(items, front + [w]))[d] ==
            multiset(WithdrawalsMissing(items, front))[d] + WithdrawalReasons(items, channel, day, d)(w)
  {
    hide OnDay;
    assert (front + [w])[..|front|] == front;
  }

  lemma WithdrawalsGiveStep(items: seq<Item>, front: seq<Withdrawal>, w: Withdrawal, channel: string, day: int, d: Diff)
    requires forall x :: x in front ==> x.channelOrderNo.Some?
    ensures multiset(WithdrawalsMissing(items, if WithdrawalInRange(w, channel, day) then front + [w] else front))[d] ==
            multiset(WithdrawalsMissing(items, front))[d] + WithdrawalReasons(items, channel, day, d)(w)
  {
    hide Listed, WithdrawalsMissing;
    if WithdrawalInRange(w, channel, day) {
      WithdrawalsGiveOne(items, front, w, channel, day, d);
    }
  }

  lemma {:induction false} WithdrawalsGive(items: seq<Item>, s: seq<Withdrawal>, channel: string, day: int, d: Diff)
    ensures multiset(WithdrawalsMissing(items, WithdrawalsSelected(s, channel, day)))[d] ==
            Sum(s, WithdrawalReasons(items, channel, day, d))
  {
    hide WithdrawalsMissing, WithdrawalReasons, OnDay;
    if s == [] {
      WithdrawalsGiveNone(items, channel, day, d);
    } else {
      var n := |s| - 1;
      WithdrawalsGive(items, s[..n], channel, day, d);
      WithdrawalsGiveStep(items, WithdrawalsSelected(s[..n], channel, day), s[n], channel, day, d);
      assert WithdrawalsSelected(s[..n], channel, day) + [] == WithdrawalsSelected(s[..n], channel, day);
    }
  }

  lemma WithdrawalsGiveNone(items: seq<Item>, channel: string, day: int, d: Diff)
    ensures WithdrawalsMissing(items, WithdrawalsSelected([], channel, day)) == []
    ensures Sum([], WithdrawalReasons(items, channel, day, d)) == 0
  {
  }

  /** Every row occurs exactly as often as there are items and orders that give rise to it. */
  lemma DifferencesOccur(p: Platform, items: seq<Item>, channel: string, day: int, d: Diff)
    ensures multiset(Differences(p, items, channel, day))[d] ==
            Sum(items, ItemReasons(p, d))
            + Sum(p.txOrders, TxReasons(items, channel, day, d))
            + Sum(p.withdrawals, WithdrawalReasons(items, channel, day, d))
  {
    hide Sum, TxsMissing, WithdrawalsMissing, ItemDiffs;
    ItemsGive(p, items, d);
    TxsGive(items, p.txOrders, channel, day, d);
    WithdrawalsGive(items, p.withdrawals, channel, day, d);
  }

  /** Every item is counted once, and every item that does not match makes one row. */
  lemma {:induction false} CountsAddUp(p: Platform, items: seq<Item>)
    ensures var t := Count(p, items);
            && t.matched + t.mismatched + t.unmatched == |items|
            && t.mismatched + t.unmatched == |ItemDiffs(p, items)|
  {
    if items != [] {
      CountsAddUp(p, items[..|items| - 1]);
    }
  }

  /** What a mark says: no order with that number; or an order with, or without, the item's own amount and fee. */
  lemma MarkMeans(p: Platform, item: Item)
    ensures var found, mark := Lookup(p, item.channelOrderNo), Mark(p, item);
            && (mark.Unmatched? <==> !Known(p, item.channelOrderNo))
            && (mark.Matched? <==> found.Some? && found.value.amount == item.amount && found.value.fee == item.fee)
            && (!mark.Unmatched? ==>
                  found.Some? && mark.orderNo == found.value.orderNo && mark.source == found.value.source)
  {
    LookupIff(p, item.channelOrderNo);
    hide Lookup, Known;
  }

  function MatchedOne(): (f: Item -> int)
    ensures forall x :: f(x) == if x.matchStatus.Matched? then 1 else 0
  {
    (x: Item) => if x.matchStatus.Matched? then 1 else 0
  }

  function MismatchedOne(): (f: Item -> int)
    ensures forall x :: f(x) == if x.matchStatus.Mismatched? then 1 else 0
  {
    (x: Item) => if x.matchStatus.Mismatched? then 1 else 0
  }

  /** The counters count the marks. */
  lemma {:induction false} CountsMarks(p: Platform, items: seq<Item>)
    ensures Count(p, items).matched == Sum(Marked(p, items), MatchedOne())
    ensures Count(p, items).mismatched == Sum(Marked(p, items), MismatchedOne())
  {
    hide Mark;
    if items != [] {
      var n := |items| - 1;
      CountsMarks(p, items[..n]);
      assert Marked(p, items)[..n] == Marked(p, items[..n]);
    }
  }

  /** The same items, whatever their marks. */
  ghost predicate SameButMarks(items: seq<Item>, others: seq<Item>) {
    |items| == |others| && forall k :: 0 <= k < |items| ==> others[k] == items[k].(matchStatus := others[k].matchStatus)
  }

  lemma {:induction false} ItemDiffsIgnoreMarks(p: Platform, items: seq<Item>, others: seq<Item>)
    requires SameButMarks(items, others)
    ensures ItemDiffs(p, others) == ItemDiffs(p, items)
    ensures Count(p, others) == Count(p, items)
  {
    hide Lookup;
    if items != [] {
      ItemDiffsIgnoreMarks(p, items[..|items| - 1], others[..|items| - 1]);
    }
  }

  lemma {:induction false} MissingDependOnNumbers(items: seq<Item>, others: seq<Item>, txs: seq<TxOrder>,
                                                  ws: seq<Withdrawal>)
    requires forall o :: o in txs ==> o.channelOrderNo.Some?
    requires forall w :: w in ws ==> w.channelOrderNo.Some?
    requires forall no :: Listed(items, no) <==> Listed(others, no)
    ensures TxsMissing(items, txs) == TxsMissing(others, txs)
    ensures WithdrawalsMissing(items, ws) == WithdrawalsMissing(others, ws)
    decreases |txs|, |ws|
  {
    if txs != [] {
      MissingDependOnNumbers(items, others, txs[..|txs| - 1], ws);
    } else if ws != [] {
      MissingDependOnNumbers(items, others, txs, ws[..|ws| - 1]);
    }
  }

  /**
   Matching again finds the same differences, the same marks and the same counts, also when the earlier run stopped
   part of the way through its marks.
  */
  lemma MatchingAgain(p: Platform, items: seq<Item>, others: seq<Item>, channel: string, day: int)
    requires SameButMarks(items, others)
    ensures Differences(p, others, channel, day) == Differences(p, items, channel, day)
    ensures Marked(p, others) == Marked(p, items)
    ensures Count(p, others) == Count(p, items)
  {
    ItemDiffsIgnoreMarks(p, items, others);
    forall no ensures Listed(items, no) <==> Listed(others, no) {
      if k :| 0 <= k < |items| && items[k].channelOrderNo == no {
        assert others[k].channelOrderNo == no;
      }
      if k :| 0 <= k < |items| && others[k].channelOrderNo == no {
        assert items[k].channelOrderNo == no;
      }
    }
    MissingDependOnNumbers(items, others,
      TxSelected(p.txOrders, channel, day), WithdrawalsSelected(p.withdrawals, channel, day));
  }

  // ---------------------------------------------------------------- fetching, then matching

  /** The lookup by the item's number gives an order with the item's amount and fee. */
  ghost predicate LeadsBack(p: Platform, item: Item) {
    Lookup(p, item.channelOrderNo).Some? && Agrees(Lookup(p, item.channelOrderNo).value, item)
  }

  /** The lookup finds an order with that amount and that fee. */
  ghost predicate NumberLeadsTo(p: Platform, no: string, amount: int, fee: int) {
    Lookup(p, no).Some? && Lookup(p, no).value.amount == amount && Lookup(p, no).value.fee == fee
  }

  /** The number of each order of the day leads back to an order with its own amount and fee. */
  ghost predicate NumbersLeadBack(p: Platform, channel: string, day: int) {
    && (forall o :: o in p.txOrders && TxOfDay(o, channel, day) ==>
        NumberLeadsTo(p, o.channelOrderNo.value, o.amount, o.fee))
    && forall w :: w in p.withdrawals && WithdrawalOfDay(w, channel, day) ==>
         NumberLeadsTo(p, w.channelOrderNo.value, w.actualAmount, w.fee)
  }

  lemma {:induction false} NothingMissing(items: seq<Item>, txs: seq<TxOrder>, ws: seq<Withdrawal>)
    requires forall o :: o in txs ==> o.channelOrderNo.Some? && Listed(items, o.channelOrderNo.value)
    requires forall w :: w in ws ==> w.channelOrderNo.Some? && Listed(items, w.channelOrderNo.value)
    ensures TxsMissing(items, txs) == [] && WithdrawalsMissing(items, ws) == []
    decreases |txs|, |ws|
  {
    if txs != [] {
      NothingMissing(items, txs[..|txs| - 1], ws);
    } else if ws != [] {
      NothingMissing(items, txs, ws[..|ws| - 1]);
    }
  }

  /** A freshly fetched statement misses none of the day's orders. */
  lemma FetchListsAll(p: Platform, channel: string, day: int)
    ensures MissingDiffs(p, FetchedItems(p, channel, day), channel, day) == []
  {
    var txs, ws := TxSelected(p.txOrders, channel, day), WithdrawalsSelected(p.withdrawals, channel, day);
    var items := FetchedItems(p, channel, day);
    forall o | o in txs ensures Listed(items, o.channelOrderNo.value) {
      var k :| 0 <= k < |txs| && txs[k] == o;
      assert items[k] == TxItem(o);
    }
    forall w | w in ws ensures Listed(items, w.channelOrderNo.value) {
      var k :| 0 <= k < |ws| && ws[k] == w;
      assert items[|txs| + k] == WithdrawalItem(w);
    }
    NothingMissing(items, txs, ws);
  }

  ghost predicate AllAgree(p: Platform, items: seq<Item>) {
    forall k :: 0 <= k < |items| ==> LeadsBack(p, items[k])
  }

  lemma NoDiffIff(p: Platform, item: Item)
    ensures ItemDiff(p, item) == [] <==> LeadsBack(p, item)
  {
    hide Lookup;
  }

  lemma {:induction false} NoItemDiffsIff(p: Platform, items: seq<Item>)
    ensures ItemDiffs(p, items) == [] <==> AllAgree(p, items)
  {
    hide ItemDiff, LeadsBack;
    if items != [] {
      var n := |items| - 1;
      NoItemDiffsIff(p, items[..n]);
      assert ItemDiff(p, items[n]) == [] <==> LeadsBack(p, items[n]) by { NoDiffIff(p, items[n]); }
      assert AllAgree(p, items) <==> AllAgree(p, items[..n]) && LeadsBack(p, items[n]);
    }
  }

  lemma TxsLeadBack(p: Platform, channel: string, day: int)
    requires AllAgree(p, FetchedItems(p, channel, day))
    ensures forall o :: o in p.txOrders && TxInRange(o, channel, day) ==> LeadsBack(p, TxItem(o))
  {
    hide LeadsBack, ItemsOf, OnDay;
    var txs := TxSelected(p.txOrders, channel, day);
    forall o | o in p.txOrders && TxInRange(o, channel, day) ensures LeadsBack(p, TxItem(o)) {
      assert o in txs;
      var k :| 0 <= k < |txs| && txs[k] == o;
      assert FetchedItems(p, channel, day)[k] == TxItem(o);
    }
  }

  lemma WithdrawalsLeadBack(p: Platform, channel: string, day: int)
    requires AllAgree(p, FetchedItems(p, channel, day))
    ensures forall w :: w in p.withdrawals && WithdrawalInRange(w, channel, day) ==> LeadsBack(p, WithdrawalItem(w))
  {
    hide LeadsBack, ItemsOf, OnDay;
    var txs, ws := TxSelected(p.txOrders, channel, day), WithdrawalsSelected(p.withdrawals, channel, day);
    forall w | w in p.withdrawals && WithdrawalInRange(w, channel, day) ensures LeadsBack(p, WithdrawalItem(w)) {
      assert w in ws;
      var k :| 0 <= k < |ws| && ws[k] == w;
      assert FetchedItems(p, channel, day)[|txs| + k] == WithdrawalItem(w);
    }
  }

  /** The same, said about the items that these orders become. */
  ghost predicate ItemsLeadBack(p: Platform, channel: string, day: int) {
    && (forall o :: o in p.txOrders && TxInRange(o, channel, day) ==> LeadsBack(p, TxItem(o)))
    && forall w :: w in p.withdrawals && WithdrawalInRange(w, channel, day) ==> LeadsBack(p, WithdrawalItem(w))
  }

  lemma ItemsLeadBackIff(p: Platform, channel: string, day: int)
    ensures ItemsLeadBack(p, channel, day) <==> NumbersLeadBack(p, channel, day)
  {
    hide Lookup, OnDay;
    if ItemsLeadBack(p, channel, day) {
      forall o | o in p.txOrders && TxOfDay(o, channel, day)
        ensures NumberLeadsTo(p, o.channelOrderNo.value, o.amount, o.fee)
      {
        assert TxInRange(o, channel, day) && LeadsBack(p, TxItem(o));
      }
      forall w | w in p.withdrawals && WithdrawalOfDay(w, channel, day)
        ensures NumberLeadsTo(p, w.channelOrderNo.value, w.actualAmount, w.fee)
      {
        assert WithdrawalInRange(w, channel, day) && LeadsBack(p, WithdrawalItem(w));
      }
    }
    if NumbersLeadBack(p, channel, day) {
      forall o | o in p.txOrders && TxInRange(o, channel, day) ensures LeadsBack(p, TxItem(o)) {
        assert TxOfDay(o, channel, day) && NumberLeadsTo(p, o.channelOrderNo.value, o.amount, o.fee);
      }
      forall w | w in p.withdrawals && WithdrawalInRange(w, channel, day) ensures LeadsBack(p, WithdrawalItem(w)) {
        assert WithdrawalOfDay(w, channel, day) && NumberLeadsTo(p, w.channelOrderNo.value, w.actualAmount, w.fee);
      }
    }
  }

  lemma ItemLeadsBack(p: Platform, channel: string, day: int, k: nat)
    requires ItemsLeadBack(p, channel, day) && k < |FetchedItems(p, channel, day)|
    ensures LeadsBack(p, FetchedItems(p, channel, day)[k])
  {
    hide LeadsBack, ItemsOf, OnDay;
    var txs, ws := TxSelected(p.txOrders, channel, day), WithdrawalsSelected(p.withdrawals, channel, day);
    var items := FetchedItems(p, channel, day);
    if k < |txs| {
      assert txs[k] in txs && items[k] == TxItem(txs[k]);
    } else {
      assert ws[k - |txs|] in ws && items[|txs| + (k - |txs|)] == WithdrawalItem(ws[k - |txs|]);
    }
  }

  lemma AllAgreeIff(p: Platform, channel: string, day: int)
    ensures AllAgree(p, FetchedItems(p, channel, day)) <==> NumbersLeadBack(p, channel, day)
  {
    hide LeadsBack, FetchedItems, OnDay, NumbersLeadBack;
    ItemsLeadBackIff(p, channel, day);
    if AllAgree(p, FetchedItems(p, channel, day)) {
      TxsLeadBack(p, channel, day);
      WithdrawalsLeadBack(p, channel, day);
    }
    if NumbersLeadBack(p, channel, day) {
      forall k | 0 <= k < |FetchedItems(p, channel, day)| ensures LeadsBack(p, FetchedItems(p, channel, day)[k]) {
        ItemLeadsBack(p, channel, day, k);
      }
    }
  }

  /** Fetching and then matching is clean exactly when every number of the day leads back to an equal order. */
  lemma FetchThenMatchIsCleanIff(p: Platform, channel: string, day: int)
    ensures Differences(p, FetchedItems(p, channel, day), channel, day) == [] <==> NumbersLeadBack(p, channel, day)
    ensures NumbersLeadBack(p, channel, day) <==>
            Count(p, FetchedItems(p, channel, day)).matched == |FetchedItems(p, channel, day)|
  {
    var items := FetchedItems(p, channel, day);
    FetchListsAll(p, channel, day);
    NoItemDiffsIff(p, items);
    AllAgreeIff(p, channel, day);
    CountsAddUp(p, items);
  }

  /** No two orders of the platform share a channel order number. */
  ghost predicate DistinctNumbers(p: Platform) {
    && (forall i, j :: 0 <= i < j < |p.txOrders| && p.txOrders[i].channelOrderNo.Some? ==>
          p.txOrders[i].channelOrderNo != p.txOrders[j].channelOrderNo)
    && (forall i, j :: 0 <= i < j < |p.withdrawals| && p.withdrawals[i].channelOrderNo.Some? ==>
          p.withdrawals[i].channelOrderNo != p.withdrawals[j].channelOrderNo)
    && forall i, j :: 0 <= i < |p.txOrders| && 0 <= j < |p.withdrawals| && p.txOrders[i].channelOrderNo.Some? ==>
         p.txOrders[i].channelOrderNo != p.withdrawals[j].channelOrderNo
  }

  lemma TxLeadsBack(p: Platform, o: TxOrder)
    requires DistinctNumbers(p) && o in p.txOrders && o.channelOrderNo.Some?
    ensures FindTx(p.txOrders, o.channelOrderNo.value) == Some(o)
  {
    var found := FindTx(p.txOrders, o.channelOrderNo.value);
    var i :| 0 <= i < |p.txOrders| && p.txOrders[i] == o;
    var j :| 0 <= j < |p.txOrders| && p.txOrders[j] == found.value;
  }

  lemma WithdrawalLeadsBack(p: Platform, w: Withdrawal)
    requires DistinctNumbers(p) && w in p.withdrawals && w.channelOrderNo.Some?
    ensures FindTx(p.txOrders, w.channelOrderNo.value) == None
    ensures FindWithdrawal(p.withdrawals, w.channelOrderNo.value) == Some(w)
  {
    var found := FindWithdrawal(p.withdrawals, w.channelOrderNo.value);
    var i :| 0 <= i < |p.withdrawals| && p.withdrawals[i] == w;
    var j :| 0 <= j < |p.withdrawals| && p.withdrawals[j] == found.value;
    forall o | o in p.txOrders ensures o.channelOrderNo != w.channelOrderNo {
      var k :| 0 <= k < |p.txOrders| && p.txOrders[k] == o;
    }
  }

  lemma DistinctNumbersLeadBack(p: Platform, channel: string, day: int)
    requires DistinctNumbers(p)
    ensures NumbersLeadBack(p, channel, day)
  {
    hide DistinctNumbers;
    forall o | o in p.txOrders && TxInRange(o, channel, day) ensures LeadsBack(p, TxItem(o)) {
      TxLeadsBack(p, o);
    }
    forall w | w in p.withdrawals && WithdrawalInRange(w, channel, day) ensures LeadsBack(p, WithdrawalItem(w)) {
      WithdrawalLeadsBack(p, w);
    }
  }

  /** Distinct numbers suffice. */
  lemma DistinctNumbersMatchCleanly(p: Platform, channel: string, day: int)
    requires DistinctNumbers(p)
    ensures Differences(p, FetchedItems(p, channel, day), channel, day) == []
    ensures Count(p, FetchedItems(p, channel, day)) == Tally(|FetchedItems(p, channel, day)|, 0, 0)
  {
    DistinctNumbersLeadBack(p, channel, day);
    FetchThenMatchIsCleanIff(p, channel, day);
    CountsAddUp(p, FetchedItems(p, channel, day));
  }

  function Numbered(items: seq<Item>): nat {
    if items == [] then 0
    else Numbered(items[..|items| - 1]) + if items[|items| - 1].channelOrderNo != "" then 1 else 0
  }

  lemma {:induction false} NumberedSplits(a: seq<Item>, b: seq<Item>)
    ensures Numbered(a + b) == Numbered(a) + Numbered(b)
  {
    if b == [] {
      assert a + b == a;
    } else {
      NumberedSplits(a, b[..|b| - 1]);
      assert (a + b)[..|a + b| - 1] == a + b[..|b| - 1];
    }
  }

  lemma NumberedAppend(items: seq<Item>, x: Item)
    ensures Numbered(items + [x]) == Numbered(items) + if x.channelOrderNo != "" then 1 else 0
  {
    assert (items + [x])[..|items|] == items;
  }

  lemma {:induction false} TxsMissed(txs: seq<TxOrder>)
    requires forall o :: o in txs ==> o.channelOrderNo.Some?
    ensures |TxsMissing([], txs)| == Numbered(ItemsOf(txs, []))
  {
    if txs != [] {
      var front, last := txs[..|txs| - 1], txs[|txs| - 1];
      assert last in txs;
      assert |TxMissing([], last)| == if last.channelOrderNo.value != "" then 1 else 0;
      assert ItemsOf(txs, []) == ItemsOf(front, []) + [TxItem(last)];
      hide Numbered, Listed, ItemsOf, TxMissing;
      TxsMissed(front);
      NumberedAppend(ItemsOf(front, []), TxItem(last));
    }
  }

  lemma {:induction false} WithdrawalsMissed(ws: seq<Withdrawal>)
    requires forall w :: w in ws ==> w.channelOrderNo.Some?
    ensures |WithdrawalsMissing([], ws)| == Numbered(ItemsOf([], ws))
  {
    if ws != [] {
      var front, last := ws[..|ws| - 1], ws[|ws| - 1];
      assert last in ws;
      assert |WithdrawalMissing([], last)| == if last.channelOrderNo.value != "" then 1 else 0;
      assert ItemsOf([], ws) == ItemsOf([], front) + [WithdrawalItem(last)];
      hide Numbered, Listed, ItemsOf, WithdrawalMissing;
      WithdrawalsMissed(front);
      NumberedAppend(ItemsOf([], front), WithdrawalItem(last));
    }
  }

  lemma ItemsSplit(txs: seq<TxOrder>, ws: seq<Withdrawal>)
    requires forall o :: o in txs ==> o.channelOrderNo.Some?
    requires forall w :: w in ws ==> w.channelOrderNo.Some?
    ensures ItemsOf(txs, ws) == ItemsOf(txs, []) + ItemsOf([], ws)
  {
  }

  lemma EmptyStatementMisses(txs: seq<TxOrder>, ws: seq<Withdrawal>)
    requires forall o :: o in txs ==> o.channelOrderNo.Some?
    requires forall w :: w in ws ==> w.channelOrderNo.Some?
    ensures |TxsMissing([], txs)| + |WithdrawalsMissing([], ws)| == Numbered(ItemsOf(txs, ws))
  {
    hide TxsMissing, WithdrawalsMissing, Numbered, ItemsOf;
    TxsMissed(txs);
    WithdrawalsMissed(ws);
    NumberedSplits(ItemsOf(txs, []), ItemsOf([], ws));
    ItemsSplit(txs, ws);
  }

  /**
   A statement that lost its items, as the first fetch leaves it when its last write fails, reports every item it should
   have held and that carries a number.
  */
  lemma LostItemsAreReported(p: Platform, channel: string, day: int)
    ensures |Differences(p, [], channel, day)| == Numbered(FetchedItems(p, channel, day))
  {
    hide TxSelected, WithdrawalsSelected, TxsMissing, WithdrawalsMissing, ItemsOf;
    EmptyStatementMisses(TxSelected(p.txOrders, channel, day), WithdrawalsSelected(p.withdrawals, channel, day));
  }
}
