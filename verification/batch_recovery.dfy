/**
 Crash recovery refines the uninterrupted run: however often the callers of one batch crash, a run that completes
 leaves the same items, balances and counters. What replayed keys add to this is the subject of `BatchRetry`.
*/
module BatchRecovery {
  import opened Prelude
  import opened Bank
  import opened Users
  import opened BatchLoops
  import opened BatchModel
  import opened BatchEscrow
  import opened BatchProtocol

  // ---------------------------------------------------------------- runs of one batch

  datatype Tick = Work | Fail | Restart

  function CurrentItem(d: Driver): nat {
    match d
    case Creating(next, _, _, _) => next
    case Resuming(todo) => if todo == [] then 0 else todo[0]
    case _ => 0
  }

  function MishapOf(faults: set<nat>, i: nat): Mishap {
    if i in faults then Throws else NoMishap
  }

  function Mishaps(faults: set<nat>): nat -> Mishap { (i: nat) => MishapOf(faults, i) }

  /** What a tick does to batch `b`; the items in `faults` are those whose transaction throws. */
  function EventOf(d: Driver, b: nat, faults: set<nat>, t: Tick): Event {
    match t
    case Work => Advance(b, MishapOf(faults, CurrentItem(d)))
    case Fail => Crash(b)
    case Restart => Recover(b)
  }

  ghost function Step(s: System, b: nat, faults: set<nat>, t: Tick): (r: System)
    requires Inv(s) && b < |s.drivers|
    ensures Inv(r)
  {
    NextKeepsInv(s, EventOf(s.drivers[b], b, faults, t));
    Next(s, EventOf(s.drivers[b], b, faults, t))
  }

  /** Nothing but batch `b` and the accounts changes, and `b` keeps what is being transferred to whom. */
  ghost predicate Framed(s: System, s': System, b: nat) {
    && b < |s.drivers| == |s'.drivers| == |s.db.batches| == |s'.db.batches|
    && s'.outside == s.outside
    && s'.db.users == s.db.users
    && s'.db.batches == s.db.batches[b := s'.db.batches[b]]
    && s'.db.batches[b].sender == s.db.batches[b].sender
    && |s'.db.batches[b].items| == |s.db.batches[b].items|
    && (forall i :: 0 <= i < |s.db.batches[b].items| ==>
        SameTransfer(s.db.batches[b].items[i], s'.db.batches[b].items[i]))
  }

  ghost predicate SameTransfer(x: Item, y: Item) {
    y.to == x.to && y.amount == x.amount
  }

  lemma MoveFrame(db: Store, b: nat, d: Driver, mishap: Mishap)
    requires HasBatch(db, b) && InRange(db.batches[b], d)
    ensures var db' := Move(db, b, d, mishap).0;
            && |db'.batches| == |db.batches| && db'.users == db.users
            && db'.batches == db.batches[b := db'.batches[b]]
            && db'.batches[b].sender == db.batches[b].sender
            && |db'.batches[b].items| == |db.batches[b].items|
            && (forall i :: 0 <= i < |db.batches[b].items| ==>
                SameTransfer(db.batches[b].items[i], db'.batches[b].items[i]))
  {
    hide Sum, ProcessItem, Reported;
    MoveColumns(db, b, d, mishap);
    if d.Creating? && d.next < |db.batches[b].items| {
      ProcessFrame(db, b, d.next, mishap);
    } else if d.Resuming? && d.todo != [] {
      ProcessFrame(db, b, d.todo[0], mishap);
    }
  }

  lemma ProcessFrame(db: Store, b: nat, i: nat, mishap: Mishap)
    requires Addresses(db, b, i)
    ensures var db' := ProcessItem(db, b, i, mishap);
            && b < |db'.batches| && |db'.batches[b].items| == |db.batches[b].items|
            && forall j :: 0 <= j < |db.batches[b].items| ==>
               SameTransfer(db.batches[b].items[j], db'.batches[b].items[j])
  {
    hide Sum;
  }

  lemma StepFrame(s: System, b: nat, faults: set<nat>, t: Tick)
    requires Inv(s) && b < |s.drivers|
    ensures Framed(s, Step(s, b, faults, t), b)
  {
    hide Accounted, ProcessItem;
    assert InPhase(s.db.batches[b], s.drivers[b]);
    MoveFrame(s.db, b, s.drivers[b], MishapOf(faults, CurrentItem(s.drivers[b])));
  }

  ghost function Play(s: System, b: nat, faults: set<nat>, ticks: seq<Tick>): (r: System)
    requires Inv(s) && b < |s.drivers|
    ensures Inv(r) && Framed(s, r, b)
    decreases |ticks|
  {
    if ticks == [] then s
    else
      var before := Play(s, b, faults, ticks[..|ticks| - 1]);
      var after := Step(before, b, faults, ticks[|ticks| - 1]);
      StepFrame(before, b, faults, ticks[|ticks| - 1]);
      assert Framed(s, after, b) by { FrameTransitive(s, before, after, b); }
      after
  }

  lemma FrameTransitive(s: System, t: System, u: System, b: nat)
    requires Framed(s, t, b) && Framed(t, u, b)
    ensures Framed(s, u, b)
  {
    forall i | 0 <= i < |s.db.batches[b].items|
      ensures SameTransfer(s.db.batches[b].items[i], u.db.batches[b].items[i])
    {
      assert SameTransfer(s.db.batches[b].items[i], t.db.batches[b].items[i]);
      assert SameTransfer(t.db.batches[b].items[i], u.db.batches[b].items[i]);
    }
  }

  lemma {:induction false} PlayAppend(s: System, b: nat, faults: set<nat>, ticks: seq<Tick>, more: seq<Tick>)
    requires Inv(s) && b < |s.drivers|
    ensures Play(s, b, faults, ticks + more) == Play(Play(s, b, faults, ticks), b, faults, more)
    decreases |more|
  {
    hide Step, Framed, Next;
    if more == [] {
      assert ticks + more == ticks;
    } else {
      var last := |more| - 1;
      assert (ticks + more)[..|ticks + more| - 1] == ticks + more[..last];
      PlayAppend(s, b, faults, ticks, more[..last]);
    }
  }

  // ---------------------------------------------------------------- every item gets the verdict of its receiver

  function Verdict(users: seq<User>, faults: set<nat>, i: nat, x: Item): ItemStatus {
    if i in faults || ReceiverFault(users, x.to).Some? then Failed else Success
  }

  ghost predicate Judged(s: System, b: nat, faults: set<nat>)
    requires b < |s.db.batches|
  {
    forall i :: 0 <= i < |s.db.batches[b].items| ==>
      s.db.batches[b].items[i].status in {Pending, Verdict(s.db.users, faults, i, s.db.batches[b].items[i])}
  }

  lemma ItemJudged(s: System, b: nat, i: nat, faults: set<nat>)
    requires Inv(s) && b < |s.db.batches| && i < |s.db.batches[b].items| && Judged(s, b, faults)
    requires s.db.batches[b].items[i].status == Pending
    ensures Judged(s.(db := ProcessItem(s.db, b, i, MishapOf(faults, i))), b, faults)
  {
    VerdictOnly(s, b, i, MishapOf(faults, i));
    ProcessOneItem(s.db, b, i, MishapOf(faults, i));
  }

  lemma MoveOtherwise(db: Store, b: nat, d: Driver, mishap: Mishap)
    requires HasBatch(db, b) && InRange(db.batches[b], d)
    requires !(d.Creating? && d.next < |db.batches[b].items|) && !(d.Resuming? && d.todo != [])
    ensures var db' := Move(db, b, d, mishap).0;
            && |db'.batches| == |db.batches| && db'.users == db.users
            && (db'.batches[b].items == db.batches[b].items || db'.batches[b].items == CoverFailed(db.batches[b].items))
  {
  }

  lemma CoveringJudges(s: System, s': System, b: nat, faults: set<nat>)
    requires b < |s.db.batches| == |s'.db.batches| && Judged(s, b, faults) && s'.db.users == s.db.users
    requires s'.db.batches[b].items == s.db.batches[b].items
             || s'.db.batches[b].items == CoverFailed(s.db.batches[b].items)
    ensures Judged(s', b, faults)
  {
  }

  lemma StepJudges(s: System, b: nat, faults: set<nat>, t: Tick)
    requires Inv(s) && b < |s.drivers| && Judged(s, b, faults)
    ensures Judged(Step(s, b, faults, t), b, faults)
  {
    hide Accounted, Sum, ProcessItem;
    var s' := Step(s, b, faults, t);
    var d := s.drivers[b];
    assert InPhase(s.db.batches[b], d);
    if t == Work {
      if d.Creating? && d.next < |s.db.batches[b].items| {
        if s.db.batches[b].items[d.next].status == Pending {
          ItemJudged(s, b, d.next, faults);
        } else {
          ProcessDecided(s.db, b, d.next, MishapOf(faults, d.next));
        }
      } else if d.Resuming? && d.todo != [] {
        assert s.db.batches[b].items[d.todo[0]].status == Pending by { assert d.todo[0] in d.todo; }
        ItemJudged(s, b, d.todo[0], faults);
      } else {
        MoveOtherwise(s.db, b, d, MishapOf(faults, CurrentItem(d)));
        CoveringJudges(s, s', b, faults);
      }
    }
  }

  lemma {:induction false} PlayJudges(s: System, b: nat, faults: set<nat>, ticks: seq<Tick>)
    requires Inv(s) && b < |s.drivers| && Judged(s, b, faults)
    ensures Judged(Play(s, b, faults, ticks), b, faults)
    decreases |ticks|
  {
    if ticks != [] {
      PlayJudges(s, b, faults, ticks[..|ticks| - 1]);
      StepJudges(Play(s, b, faults, ticks[..|ticks| - 1]), b, faults, ticks[|ticks| - 1]);
    }
  }

  // ---------------------------------------------------------------- a completed batch's balances follow from its items

  lemma SettledReturns(items: seq<Item>)
    requires Settled(items) && ReleasedOnce(items)
    ensures Returned(items) == FailedTotal(items)
  {
    SumNonNegative(items, AmountIf(HeldItem()));
    forall i | 0 <= i < |items| ensures ReturnedOf()(items[i]) == AmountIf(IsFailed())(items[i]) {
      assert AmountIf(HeldItem())(items[i]) <= 0;
    }
    SumCong(items, items, ReturnedOf(), AmountIf(IsFailed()));
  }

  /** The same status for every item, the same counters, and the same balances on every account. */
  ghost predicate SameOutcome(s: System, t: System, b: nat)
    requires b < |s.db.batches| && b < |t.db.batches|
  {
    var x, y := s.db.batches[b], t.db.batches[b];
    && x.status == y.status && x.successCount == y.successCount && x.failedCount == y.failedCount
    && |x.items| == |y.items|
    && (forall i :: 0 <= i < |x.items| ==> x.items[i].status == y.items[i].status)
    && s.db.books.accounts == t.db.books.accounts
  }

  lemma SameStatusesSameSums(x: seq<Item>, y: seq<Item>)
    requires |x| == |y|
    requires forall i :: 0 <= i < |x| ==> SameTransfer(x[i], y[i]) && x[i].status == y[i].status
    ensures CountNat(x, Succeeded()) == CountNat(y, Succeeded()) && CountNat(x, IsFailed()) == CountNat(y, IsFailed())
    ensures FailedTotal(x) == FailedTotal(y) && ItemTotal(x) == ItemTotal(y)
    ensures forall a :: CreditTo(x, a) == CreditTo(y, a)
  {
    SumCong(x, y, OneIf(Succeeded()), OneIf(Succeeded()));
    SumCong(x, y, OneIf(IsFailed()), OneIf(IsFailed()));
    SumCong(x, y, AmountIf(IsFailed()), AmountIf(IsFailed()));
    SumCong(x, y, AmountIf(Anything()), AmountIf(Anything()));
    forall a ensures CreditTo(x, a) == CreditTo(y, a) {
      SumCong(x, y, AmountIf(CreditedTo(a)), AmountIf(CreditedTo(a)));
    }
  }

  lemma SameStatusesSameBalances(s: System, t: System, b: nat)
    requires Inv(s) && Inv(t) && Framed(s, t, b)
    requires s.db.batches[b].status == Completed == t.db.batches[b].status
    requires forall i :: 0 <= i < |s.db.batches[b].items| ==>
             s.db.batches[b].items[i].status == t.db.batches[b].items[i].status
    ensures SameOutcome(s, t, b)
  {
    hide Sum;
    var x, y := s.db.batches[b].items, t.db.batches[b].items;
    assert InPhase(s.db.batches[b], s.drivers[b]) && InPhase(t.db.batches[b], t.drivers[b]);
    SameStatusesSameSums(x, y);
    SettledReturns(x);
    SettledReturns(y);
    forall a | 0 <= a < |s.outside| ensures s.db.books.accounts[a] == t.db.books.accounts[a] {
      assert Exact(s, a) && Exact(t, a);
      assert FrozenShare(a)(s.db.batches[b]) == FrozenShare(a)(t.db.batches[b]);
      assert AvailableShare(a)(s.db.batches[b]) == AvailableShare(a)(t.db.batches[b]);
      SumCong(s.db.batches, t.db.batches, FrozenShare(a), FrozenShare(a));
      SumCong(s.db.batches, t.db.batches, AvailableShare(a), AvailableShare(a));
    }
  }

  ghost predicate Completes(s: System, b: nat, faults: set<nat>, ticks: seq<Tick>)
    requires Inv(s) && b < |s.drivers|
  {
    Play(s, b, faults, ticks).db.batches[b].status == Completed
  }

  /** The two runs end with the same outcome. */
  ghost predicate SameEnd(s: System, b: nat, faults: set<nat>, ticks: seq<Tick>, ticks': seq<Tick>)
    requires Inv(s) && b < |s.drivers|
  {
    SameOutcome(Play(s, b, faults, ticks), Play(s, b, faults, ticks'), b)
  }

  lemma CompletedStatesAgree(s: System, r: System, r': System, b: nat, faults: set<nat>)
    requires Inv(r) && Inv(r') && Framed(s, r, b) && Framed(s, r', b)
    requires Judged(r, b, faults) && Judged(r', b, faults)
    requires r.db.batches[b].status == Completed == r'.db.batches[b].status
    ensures SameOutcome(r, r', b)
  {
    hide Sum, Accounted;
    assert InPhase(r.db.batches[b], r.drivers[b]) && InPhase(r'.db.batches[b], r'.drivers[b]);
    SameStatusesSameBalances(r, r', b);
  }

  /**
   Any two runs that complete a batch agree on its items, its counters and every balance, whatever crashed in between.
  */
  lemma CompletedRunsAgree(s: System, b: nat, faults: set<nat>, ticks: seq<Tick>, ticks': seq<Tick>)
    requires Inv(s) && b < |s.drivers| && Judged(s, b, faults)
    ensures Completes(s, b, faults, ticks) && Completes(s, b, faults, ticks') ==> SameEnd(s, b, faults, ticks, ticks')
  {
    hide Play;
    var r, r' := Play(s, b, faults, ticks), Play(s, b, faults, ticks');
    PlayJudges(s, b, faults, ticks);
    PlayJudges(s, b, faults, ticks');
    if Completes(s, b, faults, ticks) && Completes(s, b, faults, ticks') {
      CompletedStatesAgree(s, r, r', b, faults);
    }
  }

  // ---------------------------------------------------------------- a working caller finishes

  function Works(n: nat): seq<Tick> { seq(n, _ => Work) }

  function Rank(x: Batch, d: Driver): nat {
    match d
    case Idle => 0
    case Completing(_, _) => 1
    case Booking(_, _, _) => 2
    case Ordering(_, _, _) => 3
    case Reading(_, _, _) => 4
    case Refunding(_, _, _) => 5
    case Resuming(todo) => 6 + |todo|
    case Creating(next, _, _, _) => if next <= |x.items| then 1 + |x.items| - next else 0
  }

  lemma WorkProgresses(s: System, b: nat, faults: set<nat>)
    requires Inv(s) && b < |s.drivers| && s.drivers[b] != Idle
    ensures var s' := Step(s, b, faults, Work);
            && |s'.drivers| == |s.drivers| && b < |s'.db.batches|
            && Rank(s'.db.batches[b], s'.drivers[b]) < Rank(s.db.batches[b], s.drivers[b])
            && (s'.drivers[b] == Idle ==> s'.db.batches[b].status == Completed)
  {
    hide Sum, Accounted;
    assert InPhase(s.db.batches[b], s.drivers[b]);
    StepFrame(s, b, faults, Work);
  }

  /** The run completes the batch and ends its caller. */
  ghost predicate Finishes(s: System, b: nat, faults: set<nat>, ticks: seq<Tick>)
    requires Inv(s) && b < |s.drivers|
  {
    Completes(s, b, faults, ticks) && Play(s, b, faults, ticks).drivers[b] == Idle
  }

  lemma FinishesAfter(s: System, b: nat, faults: set<nat>, t: Tick, more: seq<Tick>)
    requires Inv(s) && b < |s.drivers|
    ensures var next := Step(s, b, faults, t);
            b < |next.drivers| && Finishes(next, b, faults, more) ==> Finishes(s, b, faults, [t] + more)
  {
    hide Inv, Step, Framed, Next;
    PlayAppend(s, b, faults, [t], more);
  }

  lemma IdleFinishes(s: System, b: nat, faults: set<nat>)
    requires Inv(s) && b < |s.drivers| && s.drivers[b] == Idle && b < |s.db.batches|
             && s.db.batches[b].status == Completed
    ensures Finishes(s, b, faults, Works(0))
  {
  }

  lemma {:induction false} WorkFinishes(s: System, b: nat, faults: set<nat>) returns (n: nat)
    requires Inv(s) && b < |s.drivers| && s.drivers[b] != Idle
    ensures Finishes(s, b, faults, Works(n))
    decreases Rank(s.db.batches[b], s.drivers[b])
  {
    hide Inv, Play, Step, Framed;
    var s' := Step(s, b, faults, Work);
    WorkProgresses(s, b, faults);
    var m := 0;
    if s'.drivers[b] == Idle {
      IdleFinishes(s', b, faults);
    } else {
      m := WorkFinishes(s', b, faults);
    }
    n := m + 1;
    FinishesAfter(s, b, faults, Work, Works(m));
    assert Works(n) == [Work] + Works(m);
  }

  // ---------------------------------------------------------------- recovery

  ghost predicate Crashed(s: System, b: nat) {
    b < |s.drivers| && b < |s.db.batches| && s.drivers[b] == Idle && s.db.batches[b].status == Processing
  }

  ghost predicate SomePending(s: System, b: nat)
    requires b < |s.db.batches|
  {
    exists i :: 0 <= i < |s.db.batches[b].items| && s.db.batches[b].items[i].status == Pending
  }

  lemma RestartState(s: System, b: nat, faults: set<nat>) returns (todo: seq<nat>)
    requires Inv(s) && Crashed(s, b) && SomePending(s, b)
    ensures HasBatch(s.db, b) && todo == PendingFrom(s.db.batches[b].items, |s.db.batches[b].items|) && todo != []
    ensures var s' := Step(s, b, faults, Restart);
            s'.db == s.db && |s'.drivers| == |s.drivers| && s'.drivers[b] == Resuming(todo)
  {
    hide Accounted, Phased, Move, ProcessItem, Sum;
    var items := s.db.batches[b].items;
    todo := PendingFrom(items, |items|);
    var i :| 0 <= i < |items| && items[i].status == Pending;
    assert i in todo;
  }

  lemma RestartRuns(s: System, b: nat, faults: set<nat>) returns (n: nat)
    requires Inv(s) && Crashed(s, b) && SomePending(s, b)
    ensures Finishes(s, b, faults, [Restart] + Works(n))
  {
    hide Play, Step, Framed;
    var _ := RestartState(s, b, faults);
    var s' := Step(s, b, faults, Restart);
    n := WorkFinishes(s', b, faults);
    FinishesAfter(s, b, faults, Restart, Works(n));
  }

  /** A batch whose createBatch call has frozen the money and not yet reached an item. */
  ghost predicate JustCreated(s: System, b: nat) {
    && b < |s.drivers| && b < |s.db.batches| && s.drivers[b] == Creating(0, 0, 0, 0)
    && I.IsFresh(s.db.batches[b].items)
  }

  /** The run ends crashed with an item still pending. */
  ghost predicate Recoverable(s: System, b: nat, faults: set<nat>, ticks: seq<Tick>)
    requires Inv(s) && b < |s.drivers|
  {
    Crashed(Play(s, b, faults, ticks), b) && SomePending(Play(s, b, faults, ticks), b)
  }

  lemma FinishesFrom(s: System, b: nat, faults: set<nat>, ticks: seq<Tick>, more: seq<Tick>)
    requires Inv(s) && b < |s.drivers|
    ensures Finishes(Play(s, b, faults, ticks), b, faults, more) ==> Finishes(s, b, faults, ticks + more)
  {
    PlayAppend(s, b, faults, ticks, more);
  }

  lemma RecoveryFinishes(s: System, b: nat, faults: set<nat>, ticks: seq<Tick>) returns (rest: nat)
    requires Inv(s) && b < |s.drivers| && Recoverable(s, b, faults, ticks)
    ensures Finishes(s, b, faults, ticks + [Restart] + Works(rest))
  {
    hide Inv, Play, Step, Framed;
    var now := Play(s, b, faults, ticks);
    rest := RestartRuns(now, b, faults);
    FinishesFrom(s, b, faults, ticks, [Restart] + Works(rest));
    assert ticks + [Restart] + Works(rest) == ticks + ([Restart] + Works(rest));
  }

  /**
   Crash and resume refine the uninterrupted run: after any run of work, crashes and restarts that ends crashed with
   an item still pending, recovery completes the batch with the outcome of the run that never crashed.
  */
  lemma RecoveryRefines(s: System, b: nat, faults: set<nat>, ticks: seq<Tick>) returns (whole: nat, rest: nat)
    requires Inv(s) && JustCreated(s, b)
    requires Recoverable(s, b, faults, ticks)
    ensures Finishes(s, b, faults, Works(whole))
    ensures SameEnd(s, b, faults, ticks + [Restart] + Works(rest), Works(whole))
  {
    hide Play, Step, Framed;
    whole := WorkFinishes(s, b, faults);
    rest := RecoveryFinishes(s, b, faults, ticks);
    CompletedRunsAgree(s, b, faults, ticks + [Restart] + Works(rest), Works(whole));
  }

  // ---------------------------------------------------------------- uninterrupted work, on the tables alone

  /** `n` moves of one caller with nobody in between. */
  ghost function Moves(db: Store, b: nat, d: Driver, faults: set<nat>, n: nat): (r: (Store, Driver))
    requires HasBatch(db, b)
    ensures HasBatch(r.0, b) && |r.0.batches[b].items| == |db.batches[b].items|
    decreases n
  {
    if n == 0 then (db, d)
    else
      var before := Moves(db, b, d, faults, n - 1);
      if !InRange(before.0.batches[b], before.1) then before
      else
        MoveFrame(before.0, b, before.1, MishapOf(faults, CurrentItem(before.1)));
        Move(before.0, b, before.1, MishapOf(faults, CurrentItem(before.1)))
  }

  lemma StepIsMove(s: System, b: nat, faults: set<nat>)
    requires Inv(s) && b < |s.drivers|
    ensures b < |s.db.batches| && HasBatch(s.db, b) && InRange(s.db.batches[b], s.drivers[b])
    ensures var s' := Step(s, b, faults, Work);
            |s'.drivers| == |s.drivers|
            && (s'.db, s'.drivers[b]) == Move(s.db, b, s.drivers[b], MishapOf(faults, CurrentItem(s.drivers[b])))
  {
    assert InPhase(s.db.batches[b], s.drivers[b]);
  }

  lemma OneMove(db: Store, b: nat, d: Driver, faults: set<nat>, n: nat, now: Store, e: Driver)
    requires HasBatch(db, b) && Moves(db, b, d, faults, n) == (now, e) && HasBatch(now, b) && InRange(now.batches[b], e)
    ensures Moves(db, b, d, faults, n + 1) == Move(now, b, e, MishapOf(faults, CurrentItem(e)))
  {
  }

  lemma PlayStep(s: System, b: nat, faults: set<nat>, n: nat)
    requires Inv(s) && b < |s.drivers|
    ensures Play(s, b, faults, Works(n + 1)) == Step(Play(s, b, faults, Works(n)), b, faults, Work)
  {
    hide Inv, Step;
    PlayAppend(s, b, faults, Works(n), [Work]);
    assert Works(n + 1) == Works(n) + [Work];
  }

  ghost predicate PlayedMoves(s: System, b: nat, faults: set<nat>, n: nat)
    requires Inv(s) && b < |s.drivers| && b < |s.db.batches| && HasBatch(s.db, b)
  {
    var r := Play(s, b, faults, Works(n));
    Moves(s.db, b, s.drivers[b], faults, n) == (r.db, r.drivers[b])
  }

  lemma {:induction false} PlayIsMoves(s: System, b: nat, faults: set<nat>, n: nat)
    requires Inv(s) && b < |s.drivers| && b < |s.db.batches| && HasBatch(s.db, b)
    ensures PlayedMoves(s, b, faults, n)
    decreases n
  {
    hide Inv, Step, Move;
    if n > 0 {
      PlayIsMoves(s, b, faults, n - 1);
      PlayStep(s, b, faults, n - 1);
      var r := Play(s, b, faults, Works(n - 1));
      StepIsMove(r, b, faults);
      OneMove(s.db, b, s.drivers[b], faults, n - 1, r.db, r.drivers[b]);
    } else {
      assert Works(0) == [];
    }
  }

  lemma {:induction false} MovesSplit(db: Store, b: nat, d: Driver, faults: set<nat>, m: nat, n: nat)
    requires HasBatch(db, b)
    ensures Moves(db, b, d, faults, m + n) ==
            Moves(Moves(db, b, d, faults, m).0, b, Moves(db, b, d, faults, m).1, faults, n)
    decreases n
  {
    hide Move, InRange, CurrentItem;
    if n > 0 {
      MovesSplit(db, b, d, faults, m, n - 1);
    }
  }

  // ---------------------------------------------------------------- the uninterrupted run is createBatch

  lemma LoopStep(db: Store, b: nat, faults: set<nat>, i: nat)
    requires HasBatch(db, b) && i < |db.batches[b].items|
    ensures var t, t' := ItemLoop(db, b, i, Mishaps(faults)), ItemLoop(db, b, i + 1, Mishaps(faults));
            Move(t.db, b, Creating(i, t.ok, t.bad, t.badTotal), MishapOf(faults, i)) ==
            (t'.db, Creating(i + 1, t'.ok, t'.bad, t'.badTotal))
  {
    LoopKeepsAmount(db, b, i, Mishaps(faults), i);
  }

  lemma {:induction false} MovesAreLoop(db: Store, b: nat, faults: set<nat>, k: nat)
    requires HasBatch(db, b) && k <= |db.batches[b].items|
    ensures var t := ItemLoop(db, b, k, Mishaps(faults));
            Moves(db, b, Creating(0, 0, 0, 0), faults, k) == (t.db, Creating(k, t.ok, t.bad, t.badTotal))
    decreases k
  {
    hide Move, ProcessItem;
    if k > 0 {
      MovesAreLoop(db, b, faults, k - 1);
      LoopStep(db, b, faults, k - 1);
    }
  }

  /** The protocol's crash-free run and the service's own loop and finaliser are the same computation. */
  lemma WorkIsDrive(s: System, b: nat, faults: set<nat>)
    requires Inv(s) && b < |s.drivers| && s.drivers[b] == Creating(0, 0, 0, 0) && b < |s.db.batches|
             && HasBatch(s.db, b)
    ensures Play(s, b, faults, Works(|s.db.batches[b].items| + 1)).db == Drive(s.db, b, Mishaps(faults))
  {
    hide Play;
    var n := |s.db.batches[b].items|;
    PlayIsMoves(s, b, faults, n + 1);
    MovesAreLoop(s.db, b, faults, n);
    var t := ItemLoop(s.db, b, n, Mishaps(faults));
    OneMove(s.db, b, Creating(0, 0, 0, 0), faults, n, t.db, Creating(n, t.ok, t.bad, t.badTotal));
  }

  // ---------------------------------------------------------------- recovery is resumeProcessing

  lemma FirstMove(db: Store, b: nat, faults: set<nat>, todo: seq<nat>)
    requires HasBatch(db, b) && todo != [] && InRange(db.batches[b], Resuming(todo))
    ensures todo[0] < |db.batches[b].items|
    ensures Moves(db, b, Resuming(todo), faults, 1) ==
            (ProcessItem(db, b, todo[0], MishapOf(faults, todo[0])), Resuming(todo[1..]))
  {
    hide ProcessItem;
    assert Moves(db, b, Resuming(todo), faults, 0) == (db, Resuming(todo));
  }

  lemma {:induction false} MovesAreResumeLoop(db: Store, b: nat, faults: set<nat>, todo: seq<nat>)
    requires HasBatch(db, b) && forall k :: 0 <= k < |todo| ==> todo[k] < |db.batches[b].items|
    ensures Moves(db, b, Resuming(todo), faults, |todo|) == (ResumeLoop(db, b, todo, Mishaps(faults)), Resuming([]))
    decreases |todo|
  {
    hide Move, ProcessItem;
    if todo != [] {
      var db' := ProcessItem(db, b, todo[0], MishapOf(faults, todo[0]));
      FirstMove(db, b, faults, todo);
      MovesAreResumeLoop(db', b, faults, todo[1..]);
      MovesSplit(db, b, Resuming(todo), faults, 1, |todo| - 1);
    }
  }

  /** Its first three write the refund and read the balances for its ledger row. */
  lemma RefundTakesThree(db: Store, b: nat, faults: set<nat>)
    requires HasBatch(db, b) && !db.batches[b].refundOrder
    requires FailedTotal(db.batches[b].items) > 0 && Refundable(db, b, FailedTotal(db.batches[b].items))
    ensures var items := db.batches[b].items;
            var ok, bad, t := CountNat(items, Succeeded()), CountNat(items, IsFailed()), FailedTotal(items);
            var db1 := RefundWrite(db, b, t);
            && HasBatch(db1, b)
            && Moves(db, b, Resuming([]), faults, 3) ==
               (db1, Ordering(ok, bad, RefundRow(db1.books.accounts, db.batches[b].sender, t, BatchRefund(b))))
  {
    var d := Resuming([]);
    var items := db.batches[b].items;
    var ok, bad, t := CountNat(items, Succeeded()), CountNat(items, IsFailed()), FailedTotal(items);
    hide Sum;
    OneMove(db, b, d, faults, 0, db, d);
    OneMove(db, b, d, faults, 1, db, Refunding(ok, bad, t));
    OneMove(db, b, d, faults, 2, RefundWrite(db, b, t), Reading(ok, bad, t));
  }

  /** A recovery that refunds takes six more accesses after its loop. */
  lemma RefundTakesSix(db: Store, b: nat, faults: set<nat>)
    requires HasBatch(db, b) && !db.batches[b].refundOrder
    requires FailedTotal(db.batches[b].items) > 0 && Refundable(db, b, FailedTotal(db.batches[b].items))
    ensures Reaches(db, b, Resuming([]), faults, 6, ResumeFinish(db, b))
  {
    var d := Resuming([]);
    var items := db.batches[b].items;
    var ok, bad, t := CountNat(items, Succeeded()), CountNat(items, IsFailed()), FailedTotal(items);
    var db1 := RefundWrite(db, b, t);
    var row := RefundRow(db1.books.accounts, db.batches[b].sender, t, BatchRefund(b));
    hide Sum, RefundWrite, RefundRow;
    RefundTakesThree(db, b, faults);
    OneMove(db, b, d, faults, 3, db1, Ordering(ok, bad, row));
    OneMove(db, b, d, faults, 4, OrderWrite(db1, b), Booking(ok, bad, row));
    OneMove(db, b, d, faults, 5, LedgerWrite(OrderWrite(db1, b), b, row), Completing(ok, bad));
  }

  /** After its loop, recovery takes at most six more accesses, and they amount to `ResumeFinish`. */
  lemma MovesAreResumeFinish(db: Store, b: nat, faults: set<nat>) returns (n: nat)
    requires HasBatch(db, b)
    ensures Reaches(db, b, Resuming([]), faults, n, ResumeFinish(db, b))
  {
    var d := Resuming([]);
    var items := db.batches[b].items;
    var ok, bad, t := CountNat(items, Succeeded()), CountNat(items, IsFailed()), FailedTotal(items);
    if t > 0 && !db.batches[b].refundOrder && Refundable(db, b, t) {
      RefundTakesSix(db, b, faults);
      return 6;
    }
    hide Sum, RefundWrite;
    OneMove(db, b, d, faults, 0, db, d);
    if t > 0 && !db.batches[b].refundOrder {
      OneMove(db, b, d, faults, 1, db, Refunding(ok, bad, t));
      OneMove(db, b, d, faults, 2, db, Completing(ok, bad));
      n := 3;
    } else {
      OneMove(db, b, d, faults, 1, db, Completing(ok, bad));
      n := 2;
    }
  }

  /** `n` moves from here end in these tables. */
  ghost predicate Reaches(db: Store, b: nat, d: Driver, faults: set<nat>, n: nat, end: Store)
    requires HasBatch(db, b)
  {
    Moves(db, b, d, faults, n).0 == end
  }

  lemma MovesCompose(db: Store, b: nat, d: Driver, faults: set<nat>, m: nat, mid: Store, e: Driver, n: nat, end: Store)
    requires HasBatch(db, b) && HasBatch(mid, b)
    requires Moves(db, b, d, faults, m) == (mid, e) && Reaches(mid, b, e, faults, n, end)
    ensures Reaches(db, b, d, faults, m + n, end)
  {
    MovesSplit(db, b, d, faults, m, n);
  }

  lemma ResumeInMoves(db: Store, b: nat, faults: set<nat>, todo: seq<nat>) returns (n: nat)
    requires HasBatch(db, b) && forall k :: 0 <= k < |todo| ==> todo[k] < |db.batches[b].items|
    ensures Reaches(db, b, Resuming(todo), faults, n, ResumeFinish(ResumeLoop(db, b, todo, Mishaps(faults)), b))
  {
    hide Moves, ResumeLoop, ResumeFinish, Move, ProcessItem;
    var mid := ResumeLoop(db, b, todo, Mishaps(faults));
    MovesAreResumeLoop(db, b, faults, todo);
    var m := MovesAreResumeFinish(mid, b, faults);
    n := |todo| + m;
    MovesCompose(db, b, Resuming(todo), faults, |todo|, mid, Resuming([]), m, ResumeFinish(mid, b));
  }

  /** The service's resumeProcessing is a restart followed by uninterrupted work. */
  lemma RestartIsResume(s: System, b: nat, faults: set<nat>) returns (n: nat)
    requires Inv(s) && Crashed(s, b) && SomePending(s, b)
    ensures HasBatch(s.db, b) && Play(s, b, faults, [Restart] + Works(n)).db == Resume(s.db, b, Mishaps(faults))
  {
    var todo := RestartState(s, b, faults);
    n := ResumeInMoves(s.db, b, faults, todo);
    PlayIsMoves(Step(s, b, faults, Restart), b, faults, n);
    PlayAppend(s, b, faults, [Restart], Works(n));
  }
}
