/** How the sums over a batch's items change when items are decided, refunded or cancelled. */
module BatchSums {
  import opened Prelude
  import opened BatchModel

  lemma NonNegative(items: seq<Item>)
    ensures Held(items) >= 0 && ItemTotal(items) >= 0 && FailedTotal(items) >= 0 && PendingTotal(items) >= 0
  {
    SumNonNegative(items, AmountIf(HeldItem()));
    SumNonNegative(items, AmountIf(Anything()));
    SumNonNegative(items, AmountIf(IsFailed()));
    SumNonNegative(items, AmountIf(IsPending()));
  }

  /** Replacing one item changes each sum by that item's contribution. */
  lemma OneItem(items: seq<Item>, i: nat, x: Item)
    requires i < |items|
    ensures var y := items[i]; var now := items[i := x];
            && Held(now) == Held(items) - AmountIf(HeldItem())(y) + AmountIf(HeldItem())(x)
            && Returned(now) == Returned(items) - ReturnedOf()(y) + ReturnedOf()(x)
            && ItemTotal(now) == ItemTotal(items) - y.amount + x.amount
            && FailedTotal(now) == FailedTotal(items) - AmountIf(IsFailed())(y) + AmountIf(IsFailed())(x)
            && CountNat(now, Succeeded()) ==
               CountNat(items, Succeeded()) - OneIf(Succeeded())(y) + OneIf(Succeeded())(x)
            && CountNat(now, IsFailed()) == CountNat(items, IsFailed()) - OneIf(IsFailed())(y) + OneIf(IsFailed())(x)
  {
    SumUpdate(items, i, x, AmountIf(HeldItem()));
    SumUpdate(items, i, x, ReturnedOf());
    SumUpdate(items, i, x, AmountIf(Anything()));
    SumUpdate(items, i, x, AmountIf(IsFailed()));
    SumUpdate(items, i, x, OneIf(Succeeded()));
    SumUpdate(items, i, x, OneIf(IsFailed()));
  }

  lemma OneCredit(items: seq<Item>, i: nat, x: Item, a: nat)
    requires i < |items|
    ensures CreditTo(items[i := x], a) ==
            CreditTo(items, a) - AmountIf(CreditedTo(a))(items[i]) + AmountIf(CreditedTo(a))(x)
  {
    SumUpdate(items, i, x, AmountIf(CreditedTo(a)));
  }

  function ReturnedAfterCover(): Item -> int { (x: Item) => ReturnedOf()(Cover(x)) }

  /** A refund of all failed items moves exactly their money from held to returned. */
  lemma CoverSums(items: seq<Item>)
    ensures Returned(CoverFailed(items)) == Returned(items) + FailedTotal(items)
    ensures ItemTotal(CoverFailed(items)) == ItemTotal(items)
    ensures forall a :: CreditTo(CoverFailed(items), a) == CreditTo(items, a)
    ensures CountNat(CoverFailed(items), Succeeded()) == CountNat(items, Succeeded())
    ensures CountNat(CoverFailed(items), IsFailed()) == CountNat(items, IsFailed())
    ensures Held(CoverFailed(items)) == PendingTotal(items)
  {
    hide Sum;
    var c := CoverFailed(items);
    SumCong(c, items, ReturnedOf(), ReturnedAfterCover());
    SumPlus(items, ReturnedOf(), AmountIf(IsFailed()), ReturnedAfterCover());
    SumCong(c, items, AmountIf(Anything()), AmountIf(Anything()));
    SumCong(c, items, OneIf(Succeeded()), OneIf(Succeeded()));
    SumCong(c, items, OneIf(IsFailed()), OneIf(IsFailed()));
    SumCong(c, items, AmountIf(HeldItem()), AmountIf(IsPending()));
    forall a ensures CreditTo(c, a) == CreditTo(items, a) {
      SumCong(c, items, AmountIf(CreditedTo(a)), AmountIf(CreditedTo(a)));
    }
  }

  function ReturnedAfterCancel(refunded: bool): Item -> int { (x: Item) => ReturnedOf()(CancelItem(x, refunded)) }

  function HeldAfterCancel(): Item -> int { (x: Item) => AmountIf(HeldItem())(CancelItem(x, true)) }

  /** Cancelling with a refund moves exactly the pending money from held to returned. */
  lemma CancelSums(items: seq<Item>, refunded: bool)
    requires forall i :: 0 <= i < |items| && items[i].status == Pending ==> items[i].releases == 0
    ensures var c := CancelItems(items, refunded);
            && Returned(c) == Returned(items) + (if refunded then PendingTotal(items) else 0)
            && Held(c) == Held(items) - (if refunded then PendingTotal(items) else 0)
            && ItemTotal(c) == ItemTotal(items)
            && forall a :: CreditTo(c, a) == CreditTo(items, a)
  {
    hide Sum;
    var c := CancelItems(items, refunded);
    SumCong(c, items, AmountIf(Anything()), AmountIf(Anything()));
    forall a ensures CreditTo(c, a) == CreditTo(items, a) {
      SumCong(c, items, AmountIf(CreditedTo(a)), AmountIf(CreditedTo(a)));
    }
    if refunded {
      SumCong(c, items, ReturnedOf(), ReturnedAfterCancel(true));
      SumPlus(items, ReturnedOf(), AmountIf(IsPending()), ReturnedAfterCancel(true));
      SumCong(c, items, AmountIf(HeldItem()), HeldAfterCancel());
      SumPlus(items, HeldAfterCancel(), AmountIf(IsPending()), AmountIf(HeldItem()));
    } else {
      SumCong(c, items, ReturnedOf(), ReturnedOf());
      SumCong(c, items, AmountIf(HeldItem()), AmountIf(HeldItem()));
    }
  }

  /** With nothing pending and nothing refunded, exactly the failed money is held. */
  lemma HeldIsFailed(items: seq<Item>)
    requires forall i :: 0 <= i < |items| ==> items[i].status != Pending && items[i].releases == 0
    ensures Held(items) == FailedTotal(items)
  {
    SumCong(items, items, AmountIf(HeldItem()), AmountIf(IsFailed()));
  }

  lemma {:induction false} NoneOf(items: seq<Item>, f: Item -> int)
    requires forall i :: 0 <= i < |items| ==> f(items[i]) == 0
    ensures Sum(items, f) == 0
  {
    if items != [] {
      NoneOf(items[..|items| - 1], f);
    }
  }

  lemma {:induction false} CountsAddUp(items: seq<Item>)
    requires forall i :: 0 <= i < |items| ==> items[i].status != Pending
    ensures CountNat(items, Succeeded()) + CountNat(items, IsFailed()) == |items|
  {
    if items != [] {
      CountsAddUp(items[..|items| - 1]);
    }
  }
}
