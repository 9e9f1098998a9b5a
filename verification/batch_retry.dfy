/**
 createBatch calls that replay an idempotency key, at any time and among any other events: what they do to a crashed
 batch and to one whose items are all decided, and what recovery and cancellation achieve in view of them.
*/
module BatchRetry {
  import opened Prelude
  import opened BatchModel
  import opened BatchSums
  import opened BatchLoops
  import opened BatchEscrow
  import opened BatchProtocol
  import R = BatchRecovery

  // ---------------------------------------------------------------- replaying the key of a crashed batch

  /**
   The replayed call counts what was paid before as failed and asks for it along with the money that really failed.
   `other` is the sender's frozen money that does not belong to the batch. If it covers the money paid before, the
   call releases that money too; otherwise it releases nothing, and the failed money stays frozen.
  */
  lemma ReplayOutcome(db: Store, b: nat, faults: nat -> Mishap)
    requires HasBatch(db, b) && db.users[db.batches[b].sender].hasAccount
    ensures var x := db.batches[b];
            var t := ItemLoop(db, b, |x.items|, faults);
            var y := t.db.batches[b].items;
            var end := Drive(db, b, faults);
            var other := FrozenOf(db, b) - FailedTotal(x.items) - PendingTotal(x.items);
            var asked := FailedTotal(y) + PendingTotal(y) + PaidTotal(x.items);
            var released := asked > 0 && other >= PaidTotal(x.items);
            && Passed(db, t.db, b) && HasBatch(end, b) && |end.batches[b].items| == |y|
            && FrozenOf(end, b) == other + (if released then -PaidTotal(x.items) else FailedTotal(y) + PendingTotal(y))
            && (forall i :: 0 <= i < |y| ==> end.batches[b].items[i] == if released then Cover(y[i]) else y[i])
            && (x.status == Processing ==>
                  && end.batches[b].status == Completed
                  && end.batches[b].successCount + CountNat(x.items, Succeeded()) == CountNat(y, Succeeded())
                  && end.batches[b].successCount + end.batches[b].failedCount == |x.items|)
  {
    hide Sum, ItemLoop;
    var x := db.batches[b].items;
    LoopPasses(db, b, |x|, faults);
    assert x[..|x|] == x;
    TotalSplits(x);
    TotalSplits(ItemLoop(db, b, |x|, faults).db.batches[b].items);
  }

  /** After a run with nothing refunded, a replay refunds exactly the failed money or leaves exactly it frozen. */
  lemma ReplayOfCrashed(db: Store, b: nat, faults: nat -> Mishap)
    requires HasBatch(db, b) && db.users[db.batches[b].sender].hasAccount
    requires NoneReleased(db.batches[b].items) && forall i: nat :: faults(i) != MarkLost
    ensures var x := db.batches[b];
            var end := Drive(db, b, faults);
            var other := FrozenOf(db, b) - FailedTotal(x.items) - PendingTotal(x.items);
            && HasBatch(end, b) && NonePending(end.batches[b].items)
            && Held(end.batches[b].items) == (if other >= PaidTotal(x.items) then 0
                                              else FailedTotal(end.batches[b].items))
  {
    hide Sum, ItemLoop, Drive;
    var x := db.batches[b].items;
    var y := ItemLoop(db, b, |x|, faults).db.batches[b].items;
    ReplayOutcome(db, b, faults);
    var z := Drive(db, b, faults).batches[b].items;
    LoopPasses(db, b, |x|, faults);
    forall i | 0 <= i < |x| ensures y[i].releases == 0 && y[i].status != Pending {
      assert ItemPassed(x[i], y[i]);
    }
    NoneOf(y, AmountIf(IsPending()));
    NonNegative(y);
    PaidNonNegative(x);
    if FailedTotal(y) + PaidTotal(x) > 0 && FrozenOf(db, b) - FailedTotal(x) - PendingTotal(x) >= PaidTotal(x) {
      NoneOf(z, AmountIf(HeldItem()));
      assert forall i :: 0 <= i < |y| ==> z[i].status == y[i].status;
    } else {
      HeldIsFailed(y);
      assert z == y;
    }
  }

  lemma PaidNonNegative(items: seq<Item>)
    ensures PaidTotal(items) >= 0
  {
    SumNonNegative(items, AmountIf(Succeeded()));
  }

  ghost predicate NonePaid(items: seq<Item>) {
    forall i :: 0 <= i < |items| ==> items[i].status != Success
  }

  lemma {:induction false} NonePaidCounts(items: seq<Item>)
    ensures CountNat(items, Succeeded()) == 0 <==> NonePaid(items)
  {
    if items != [] {
      NonePaidCounts(items[..|items| - 1]);
    }
  }

  ghost predicate SameStatuses(x: seq<Item>, y: seq<Item>) {
    |x| == |y| && forall i :: 0 <= i < |x| ==> x[i].status == y[i].status
  }

  lemma SameStatusesSameCount(x: seq<Item>, y: seq<Item>)
    requires SameStatuses(x, y)
    ensures CountNat(x, Succeeded()) == CountNat(y, Succeeded())
  {
    SumCong(x, y, OneIf(Succeeded()), OneIf(Succeeded()));
  }

  /** A run of one batch ends crashed, with nothing refunded yet. */
  ghost predicate CrashesUnrefunded(s: System, b: nat, faults: set<nat>, ticks: seq<R.Tick>)
    requires Inv(s) && b < |s.drivers|
  {
    var now := R.Play(s, b, faults, ticks);
    R.Crashed(now, b) && NoneReleased(now.db.batches[b].items) && !now.db.batches[b].refundOrder
  }

  /** Replaying the key in this state ends as `u` did. */
  ghost predicate ReplayEndsAs(now: System, u: System, b: nat, faults: set<nat>)
    requires HasBatch(now.db, b) && b < |u.db.batches|
  {
    var end := Drive(now.db, b, R.Mishaps(faults));
    b < |end.batches| && R.SameOutcome(now.(db := end), u, b)
  }

  /** With nothing paid, replaying is starting over: the invariant holds throughout, and the outcome is the same. */
  lemma UnpaidReplayRefines(s: System, now: System, u: System, b: nat, faults: set<nat>)
    requires Inv(now) && Inv(u) && R.Framed(s, now, b) && R.Framed(s, u, b) && R.Judged(now, b, faults)
             && R.Judged(u, b, faults)
    requires b < |now.drivers| && now.drivers[b] == Idle && Unpaid(now.db.batches[b])
             && u.db.batches[b].status == Completed
    ensures HasBatch(now.db, b) && ReplayEndsAs(now, u, b, faults)
  {
    hide Accounted, Sum, Drive, R.Play, R.Step, Next, I.Valid, R.SameOutcome;
    var s1 := now.(drivers := now.drivers[b := Creating(0, 0, 0, 0)]);
    ReplayInv(now, b);
    var n := |now.db.batches[b].items|;
    var r := R.Play(s1, b, faults, R.Works(n + 1));
    R.WorkIsDrive(s1, b, faults);
    R.PlayJudges(s1, b, faults, R.Works(n + 1));
    ReplayOutcome(now.db, b, R.Mishaps(faults));
    R.FrameTransitive(s, s1, r, b);
    R.CompletedStatesAgree(s, r, u, b, faults);
    SameOutcomeOfDb(r, now.(db := r.db), u, b);
  }

  lemma SameOutcomeOfDb(r: System, r': System, u: System, b: nat)
    requires b < |r.db.batches| && b < |u.db.batches| && r'.db == r.db && R.SameOutcome(r, u, b)
    ensures R.SameOutcome(r', u, b)
  {
  }

  /** With something paid before, the replay's success count falls short. */
  lemma PaidReplayDiffers(now: System, u: System, b: nat, faults: set<nat>)
    requires HasBatch(now.db, b) && now.db.users[now.db.batches[b].sender].hasAccount
    requires now.db.batches[b].status == Processing && !NonePaid(now.db.batches[b].items)
    requires b < |u.db.batches| && u.db.batches[b].successCount == CountNat(u.db.batches[b].items, Succeeded())
    ensures !ReplayEndsAs(now, u, b, faults)
  {
    hide Sum, Drive, ItemLoop;
    var x := now.db.batches[b].items;
    var end := Drive(now.db, b, R.Mishaps(faults));
    ReplayOutcome(now.db, b, R.Mishaps(faults));
    var y := ItemLoop(now.db, b, |x|, R.Mishaps(faults)).db.batches[b].items;
    NonePaidCounts(x);
    if ReplayEndsAs(now, u, b, faults) {
      SameStatusesSameCount(end.batches[b].items, u.db.batches[b].items);
      SameStatusesSameCount(end.batches[b].items, y);
    }
  }

  /**
   Replaying the key of a crashed createBatch has the outcome of the run that never crashed exactly when nothing had
   been paid out before the crash.
  */
  lemma ReplayRefinesIff(s: System, b: nat, faults: set<nat>, ticks: seq<R.Tick>) returns (whole: nat)
    requires Inv(s) && R.JustCreated(s, b) && CrashesUnrefunded(s, b, faults, ticks)
    ensures R.Finishes(s, b, faults, R.Works(whole))
    ensures var now, u := R.Play(s, b, faults, ticks), R.Play(s, b, faults, R.Works(whole));
            && HasBatch(now.db, b) && b < |u.db.batches|
            && (ReplayEndsAs(now, u, b, faults) <==> NonePaid(now.db.batches[b].items))
  {
    hide Accounted, Sum, R.Play, R.Step, I.Valid, ReplayEndsAs;
    whole := R.WorkFinishes(s, b, faults);
    var now, u := R.Play(s, b, faults, ticks), R.Play(s, b, faults, R.Works(whole));
    R.PlayJudges(s, b, faults, ticks);
    R.PlayJudges(s, b, faults, R.Works(whole));
    assert InPhase(u.db.batches[b], u.drivers[b]);
    if NonePaid(now.db.batches[b].items) {
      UnpaidReplayRefines(s, now, u, b, faults);
    } else {
      PaidReplayDiffers(now, u, b, faults);
    }
  }

  // ---------------------------------------------------------------- a batch whose items are all decided

  /** Every item is decided, and no call works on the batch but a replay, which counts all it passes as failed. */
  ghost predicate Parked(s: System, b: nat)
    requires Ready(s)
  {
    && b < |s.drivers|
    && NonePending(s.db.batches[b].items)
    && match s.drivers[b]
       case Idle => true
       case Creating(next, ok, bad, badTotal) =>
         ok == 0 && bad == next && badTotal == ItemTotal(s.db.batches[b].items[..next])
       case _ => false
  }

  /** This event is the finaliser of a replay. */
  ghost predicate Ends(s: System, e: Event, b: nat)
    requires Ready(s)
  {
    && e.Advance? && e.batch == b && b < |s.drivers|
    && s.drivers[b].Creating? && s.drivers[b].next == |s.db.batches[b].items|
  }

  /** The finaliser finds the batch total in the sender's frozen balance, and releases it. */
  ghost predicate Releases(s: System, e: Event, b: nat)
    requires Ready(s)
  {
    Ends(s, e, b) && Refundable(s.db, b, ItemTotal(s.db.batches[b].items))
  }

  ghost predicate Withdraws(s: System, e: Event, b: nat)
    requires Ready(s)
  {
    && e.Cancel? && e.batch == b && b < |s.drivers|
    && e.user == s.db.batches[b].sender && s.db.batches[b].status == Processing
  }

  /** A createBatch call with the key of this batch, by its sender. */
  predicate Replays(e: Event, x: Batch) {
    e.Retry? && e.key.Some? && e.key == x.key && e.sender == x.sender
  }

  /** An item after `n` more refunds of its batch. */
  function CoveredBy(x: Item, n: nat): Item {
    if x.status == Failed then x.(releases := x.releases + n) else x
  }

  ghost predicate CoveredTimes(x: seq<Item>, y: seq<Item>, n: nat) {
    |y| == |x| && forall i :: 0 <= i < |x| ==> y[i] == CoveredBy(x[i], n)
  }

  /** What an event does to a parked batch. */
  ghost predicate ParkedStep(s: System, e: Event, s': System, b: nat)
    requires Ready(s) && Ready(s') && b < |s.drivers|
  {
    && Parked(s', b)
    && var x, y := s.db.batches[b], s'.db.batches[b];
       && y.key == x.key && y.sender == x.sender
       && CoveredTimes(x.items, y.items, if Releases(s, e, b) then 1 else 0)
       && y.status == (if Ends(s, e, b) && x.status == Processing then Completed
                       else if Withdraws(s, e, b) then Cancelled else x.status)
       && (s.drivers[b] == Idle && !Replays(e, x) ==> s'.drivers[b] == Idle)
  }

  lemma ParkedMove(db: Store, b: nat, next: nat, mishap: Mishap)
    requires HasBatch(db, b) && next <= |db.batches[b].items| && NonePending(db.batches[b].items)
    ensures var items := db.batches[b].items;
            var r := Move(db, b, Creating(next, 0, next, ItemTotal(items[..next])), mishap);
            if next < |items| then r == (db, Creating(next + 1, 0, next + 1, ItemTotal(items[..next + 1])))
            else
              && r.1 == Idle && b < |r.0.batches|
              && CoveredTimes(items, r.0.batches[b].items, if Refundable(db, b, ItemTotal(items)) then 1 else 0)
              && r.0.batches[b].status == if db.batches[b].status == Processing then Completed else db.batches[b].status
  {
    hide Sum;
    var items := db.batches[b].items;
    if next < |items| {
      ProcessDecided(db, b, next, mishap);
      assert items[..next + 1] == items[..next] + [items[next]];
      SumAppend(items[..next], items[next], AmountIf(Anything()));
    } else {
      assert items[..next] == items;
    }
  }

  lemma ParkedAdvance(s: System, b: nat, mishap: Mishap)
    requires Ready(s) && Parked(s, b)
    ensures ParkedStep(s, Advance(b, mishap), Next(s, Advance(b, mishap)), b)
  {
    hide Sum, Move;
    MoveColumns(s.db, b, s.drivers[b], mishap);
    if s.drivers[b] == Idle {
      IdleStays(s.db, b, mishap);
    } else {
      ParkedMove(s.db, b, s.drivers[b].next, mishap);
    }
  }

  lemma IdleStays(db: Store, b: nat, mishap: Mishap)
    requires HasBatch(db, b)
    ensures Move(db, b, Idle, mishap) == (db, Idle)
  {
  }

  /** Cancelling a decided batch changes its status and its counters only. */
  lemma CancelDecided(db: Store, b: nat, user: nat)
    requires HasBatch(db, b) && NonePending(db.batches[b].items)
    ensures var r := CancelTx(db, b, user);
            && (r.Ok? <==> user == db.batches[b].sender && db.batches[b].status == Processing)
            && (r.Ok? ==> |r.value.batches| == |db.batches| && r.value.batches[b].items == db.batches[b].items
                          && r.value.batches[b].status == Cancelled && SameColumns(db.batches[b], r.value.batches[b]))
  {
    hide Sum;
    var items := db.batches[b].items;
    assert CancelItems(items, true) == items == CancelItems(items, false);
  }

  lemma ParkedCancel(s: System, b: nat, e: Event)
    requires Ready(s) && Parked(s, b) && e.Cancel?
    ensures ParkedStep(s, e, Next(s, e), b)
  {
    hide Sum, CancelTx;
    if e.batch == b {
      CancelDecided(s.db, b, e.user);
    } else if ExistingBatch(s, e.batch) {
      CancelTouchesOnly(s.db, e.batch, e.user);
    }
  }

  lemma CancelTouchesOnly(db: Store, b: nat, user: nat)
    requires HasBatch(db, b)
    ensures var r := CancelTx(db, b, user);
            r.Ok? ==> |r.value.batches| == |db.batches| && r.value.batches == db.batches[b := r.value.batches[b]]
  {
  }

  lemma ParkedRetry(s: System, b: nat, e: Event)
    requires Ready(s) && Parked(s, b) && e.Retry?
    ensures ParkedStep(s, e, Next(s, e), b)
  {
    hide Sum;
    NoneOf(s.db.batches[b].items[..0], AmountIf(Anything()));
  }

  lemma ParkedRecover(s: System, b: nat, e: Event)
    requires Ready(s) && Parked(s, b) && e.Recover?
    ensures ParkedStep(s, e, Next(s, e), b)
  {
    hide Sum;
    NothingToDo(s.db.batches[b].items, |s.db.batches[b].items|);
  }

  lemma ParkedOtherAdvance(s: System, b: nat, e: Event)
    requires Ready(s) && Parked(s, b) && e.Advance? && e.batch != b
    ensures ParkedStep(s, e, Next(s, e), b)
  {
    hide Sum, Move;
    if ExistingBatch(s, e.batch) {
      MoveColumns(s.db, e.batch, s.drivers[e.batch], e.mishap);
    }
  }

  lemma ParkedElsewhere(s: System, b: nat, e: Event)
    requires Ready(s) && Parked(s, b) && (e.Submit? || e.Crash? || e.Elsewhere? || e.ChangeUser?)
    ensures ParkedStep(s, e, Next(s, e), b)
  {
    hide Sum, Move;
  }

  lemma {:induction false} NothingToDo(items: seq<Item>, upTo: nat)
    requires upTo <= |items| && forall i :: 0 <= i < upTo ==> items[i].status != Pending
    ensures PendingFrom(items, upTo) == []
  {
    if upTo > 0 {
      NothingToDo(items, upTo - 1);
    }
  }

  lemma ParkedNext(s: System, b: nat, e: Event)
    requires Ready(s) && Parked(s, b)
    ensures ParkedStep(s, e, Next(s, e), b)
  {
    hide Next, ParkedStep, Ready;
    if e.Cancel? {
      ParkedCancel(s, b, e);
    } else if e.Retry? {
      ParkedRetry(s, b, e);
    } else if e.Recover? {
      ParkedRecover(s, b, e);
    } else if e.Advance? && e.batch == b {
      ParkedAdvance(s, b, e.mishap);
    } else if e.Advance? {
      ParkedOtherAdvance(s, b, e);
    } else {
      ParkedElsewhere(s, b, e);
    }
  }

  /** How often a replay releases the batch total in the course of a run. */
  ghost function ReleasesIn(s: System, events: seq<Event>, b: nat): nat
    requires Ready(s)
    decreases |events|
  {
    if events == [] then 0
    else
      var front := events[..|events| - 1];
      ReleasesIn(s, front, b) + if Releases(Run(s, front), events[|events| - 1], b) then 1 else 0
  }

  ghost predicate ParkedRun(s: System, events: seq<Event>, b: nat)
    requires Ready(s) && b < |s.drivers|
  {
    var r := Run(s, events);
    && Parked(r, b)
    && r.db.batches[b].key == s.db.batches[b].key && r.db.batches[b].sender == s.db.batches[b].sender
    && CoveredTimes(s.db.batches[b].items, r.db.batches[b].items, ReleasesIn(s, events, b))
  }

  /**
   In every run, whatever happens to other batches, accounts and users: the items of a decided batch keep their
   statuses, and its failed items are refunded once more for each replay that finds the batch total frozen.
  */
  lemma {:induction false} DecidedBatchRuns(s: System, events: seq<Event>, b: nat)
    requires Ready(s) && Parked(s, b)
    ensures ParkedRun(s, events, b)
    decreases |events|
  {
    hide Next, Ready, Sum;
    if events != [] {
      var front := events[..|events| - 1];
      DecidedBatchRuns(s, front, b);
      ParkedNext(Run(s, front), b, events[|events| - 1]);
    }
  }

  // ---------------------------------------------------------------- what becomes of a crashed batch

  ghost predicate NeverReplayed(events: seq<Event>, x: Batch) {
    forall k :: 0 <= k < |events| ==> !Replays(events[k], x)
  }

  ghost predicate QuietRun(s: System, events: seq<Event>, b: nat)
    requires Ready(s) && b < |s.drivers|
  {
    var r := Run(s, events);
    && b < |r.drivers| && r.drivers[b] == Idle && ReleasesIn(s, events, b) == 0
    && r.db.batches[b].items == s.db.batches[b].items
    && (r.db.batches[b].status == s.db.batches[b].status
        || (s.db.batches[b].status == Processing && r.db.batches[b].status == Cancelled))
  }

  /** Unless its key is replayed, nothing works on a decided batch any more; at most it is cancelled. */
  lemma {:induction false} QuietUnlessReplayed(s: System, events: seq<Event>, b: nat)
    requires Ready(s) && Parked(s, b) && s.drivers[b] == Idle && NeverReplayed(events, s.db.batches[b])
    ensures QuietRun(s, events, b)
    decreases |events|
  {
    hide Next, Sum;
    if events != [] {
      var front := events[..|events| - 1];
      QuietUnlessReplayed(s, front, b);
      DecidedBatchRuns(s, front, b);
      ParkedNext(Run(s, front), b, events[|events| - 1]);
      assert !Replays(events[|events| - 1], s.db.batches[b]);
    }
  }

  /** Some replay reaches its finaliser while the batch is still processing. */
  ghost predicate ReplayCompletes(s: System, events: seq<Event>, b: nat)
    requires Ready(s) && b < |s.drivers|
  {
    exists k :: 0 <= k < |events| && CompletesAt(s, events, b, k)
  }

  ghost predicate CompletesAt(s: System, events: seq<Event>, b: nat, k: nat)
    requires Ready(s) && k < |events|
  {
    var before := Run(s, events[..k]);
    Ends(before, events[k], b) && before.db.batches[b].status == Processing
  }

  /** A crashed batch without a pending item is completed by a run exactly when a replay of its key gets that far. */
  lemma {:induction false} CompletedByReplayIff(s: System, events: seq<Event>, b: nat)
    requires Ready(s) && Parked(s, b) && s.db.batches[b].status == Processing
    ensures b < |Run(s, events).db.batches|
    ensures Run(s, events).db.batches[b].status in {Processing, Completed, Cancelled}
    ensures Run(s, events).db.batches[b].status == Completed <==> ReplayCompletes(s, events, b)
    decreases |events|
  {
    hide Next, Sum, Ends, Releases;
    if events != [] {
      var n := |events| - 1;
      var front := events[..n];
      CompletedByReplayIff(s, front, b);
      DecidedBatchRuns(s, front, b);
      ParkedNext(Run(s, front), b, events[n]);
      forall k | 0 <= k < n ensures CompletesAt(s, events, b, k) <==> CompletesAt(s, front, b, k) {
        assert front[..k] == events[..k];
      }
      assert CompletesAt(s, events, b, n) <==>
        Ends(Run(s, front), events[n], b) && Run(s, front).db.batches[b].status == Processing;
      if ReplayCompletes(s, front, b) {
        var k :| 0 <= k < n && CompletesAt(s, front, b, k);
        assert CompletesAt(s, events, b, k);
      }
    }
  }

  // ---------------------------------------------------------------- runs that lead somewhere

  lemma {:induction false} RunCons(s: System, e: Event, events: seq<Event>)
    requires Ready(s)
    ensures Run(s, [e] + events) == Run(Next(s, e), events)
    decreases |events|
  {
    hide Next, Ready;
    var all := [e] + events;
    if events == [] {
      assert all[..0] == [] && all == [e];
    } else {
      RunCons(s, e, events[..|events| - 1]);
      assert all[..|all| - 1] == [e] + events[..|events| - 1];
    }
  }

  lemma MoveProgress(db: Store, b: nat, d: Driver)
    requires HasBatch(db, b) && InRange(db.batches[b], d) && d != Idle && db.batches[b].status == Processing
    ensures var r := Move(db, b, d, NoMishap);
            && b < |r.0.batches| && R.Rank(r.0.batches[b], r.1) < R.Rank(db.batches[b], d)
            && r.0.batches[b].status == if r.1 == Idle then Completed else Processing
  {
    hide Sum;
  }

  /** Any caller that is at work on a processing batch and is left alone completes it. */
  lemma {:induction false} CallerCompletes(s: System, b: nat) returns (events: seq<Event>)
    requires Ready(s) && b < |s.drivers| && s.drivers[b] != Idle && s.db.batches[b].status == Processing
    ensures b < |Run(s, events).db.batches| && Run(s, events).db.batches[b].status == Completed
    decreases R.Rank(s.db.batches[b], s.drivers[b])
  {
    hide Move, Sum;
    var e := Advance(b, NoMishap);
    var s' := Next(s, e);
    MoveColumns(s.db, b, s.drivers[b], NoMishap);
    MoveProgress(s.db, b, s.drivers[b]);
    events := [];
    if s'.drivers[b] != Idle {
      events := CallerCompletes(s', b);
    }
    RunCons(s, e, events);
    events := [e] + events;
  }

  ghost predicate SomeRunCompletes(s: System, b: nat)
    requires Ready(s)
  {
    exists events :: RunCompletes(s, events, b)
  }

  ghost predicate RunCompletes(s: System, events: seq<Event>, b: nat)
    requires Ready(s)
  {
    var r := Run(s, events);
    b < |r.db.batches| && r.db.batches[b].status == Completed
  }

  /** What a first event sets to work completes the batch. */
  lemma FirstEventCompletes(s: System, b: nat, e: Event)
    requires Ready(s) && R.Crashed(s, b)
    requires var s' := Next(s, e); s'.db == s.db && b < |s'.drivers| && s'.drivers[b] != Idle
    ensures SomeRunCompletes(s, b)
  {
    hide Next, Ready;
    var events := CallerCompletes(Next(s, e), b);
    RunCons(s, e, events);
    assert RunCompletes(s, [e] + events, b);
  }

  /**
   After a crash the batch can still complete exactly when an item is pending, for recovery to find, or the batch has a
   key, for its sender to replay.
  */
  lemma RecoverableIff(s: System, b: nat)
    requires Ready(s) && R.Crashed(s, b)
    ensures SomeRunCompletes(s, b) <==> R.SomePending(s, b) || s.db.batches[b].key.Some?
  {
    hide Sum, Move;
    var x := s.db.batches[b];
    if R.SomePending(s, b) {
      var i :| 0 <= i < |x.items| && x.items[i].status == Pending;
      assert i in PendingFrom(x.items, |x.items|);
      FirstEventCompletes(s, b, Recover(b));
    } else if x.key.Some? {
      FirstEventCompletes(s, b, Retry(x.sender, x.key));
    } else if SomeRunCompletes(s, b) {
      var events :| RunCompletes(s, events, b);
      QuietUnlessReplayed(s, events, b);
    }
  }

  /**
   Without a pending item, and without a replay of its key, a crashed batch stays as it is for good, unless its sender
   cancels it.
  */
  lemma StuckUnlessReplayed(s: System, events: seq<Event>, b: nat)
    requires Ready(s) && R.Crashed(s, b) && !R.SomePending(s, b) && NeverReplayed(events, s.db.batches[b])
    ensures var r := Run(s, events);
            && b < |r.drivers| && r.drivers[b] == Idle
            && r.db.batches[b].items == s.db.batches[b].items
            && r.db.batches[b].status in {Processing, Cancelled}
  {
    QuietUnlessReplayed(s, events, b);
  }

  // ---------------------------------------------------------------- money left behind by a cancellation

  lemma HeldAfter(x: seq<Item>, y: seq<Item>, n: nat)
    requires NonePending(x) && CoveredTimes(x, y, n)
    ensures Held(y) == if n == 0 then Held(x) else 0
  {
    hide Sum;
    if n == 0 {
      SumCong(x, y, AmountIf(HeldItem()), AmountIf(HeldItem()));
    } else {
      NoneOf(y, AmountIf(HeldItem()));
    }
  }

  /** After a cancellation the held money is the money of the items that had failed before. */
  lemma CancelHolds(s: System, b: nat)
    requires Inv(s) && R.Crashed(s, b) && NoneReleased(s.db.batches[b].items)
    ensures var s' := Next(s, Cancel(b, s.db.batches[b].sender));
            && Parked(s', b) && s'.drivers[b] == Idle && s'.db.batches[b].status == Cancelled
            && s'.db.batches[b].key == s.db.batches[b].key && s'.db.batches[b].sender == s.db.batches[b].sender
            && Held(s'.db.batches[b].items) == FailedTotal(s.db.batches[b].items)
            && ItemTotal(s'.db.batches[b].items) == ItemTotal(s.db.batches[b].items)
            && s'.db.users == s.db.users
  {
    hide Sum, Accounted;
    var items := s.db.batches[b].items;
    CancelSums(items, true);
    CancelSums(items, false);
    SumPlus(items, AmountIf(IsFailed()), AmountIf(IsPending()), AmountIf(HeldItem()));
    GuardsHold(s, b);
    NonNegative(items);
  }

  /**
   Cancelling a crashed batch returns the pending money and leaves the money of its failed items frozen. In any run
   from there that money stays frozen until a replay of the batch's key finds the whole batch total in the sender's
   frozen balance; the replay then releases the whole total, returned money included.
  */
  lemma CancelStrandsFailedMoney(s: System, b: nat, events: seq<Event>)
    requires Inv(s) && R.Crashed(s, b) && NoneReleased(s.db.batches[b].items)
    ensures var s' := Next(s, Cancel(b, s.db.batches[b].sender));
            && Parked(s', b) && s'.db.batches[b].status == Cancelled
            && ParkedRun(s', events, b)
            && Held(Run(s', events).db.batches[b].items) ==
               (if ReleasesIn(s', events, b) == 0 then FailedTotal(s.db.batches[b].items) else 0)
            && (NeverReplayed(events, s.db.batches[b]) ==> ReleasesIn(s', events, b) == 0)
  {
    hide Sum, Next, Accounted, Phased, I.Valid, Run, Held;
    CancelHolds(s, b);
    var s' := Next(s, Cancel(b, s.db.batches[b].sender));
    DecidedBatchRuns(s', events, b);
    HeldAfter(s'.db.batches[b].items, Run(s', events).db.batches[b].items, ReleasesIn(s', events, b));
    if NeverReplayed(events, s.db.batches[b]) {
      assert NeverReplayed(events, s'.db.batches[b]);
      QuietUnlessReplayed(s', events, b);
    }
  }

  lemma {:induction false} ReleasesCons(s: System, e: Event, events: seq<Event>, b: nat)
    requires Ready(s)
    ensures ReleasesIn(s, [e] + events, b) == (if Releases(s, e, b) then 1 else 0) + ReleasesIn(Next(s, e), events, b)
    decreases |events|
  {
    hide Next, Ready, Releases;
    var all := [e] + events;
    if events == [] {
      assert all[..0] == [] && all == [e];
    } else {
      var n := |events| - 1;
      ReleasesCons(s, e, events[..n], b);
      RunCons(s, e, events[..n]);
      assert all[..|all| - 1] == [e] + events[..n];
    }
  }

  /** The sender's frozen balance covers the whole batch. */
  ghost predicate Covers(s: System, b: nat)
    requires Ready(s) && b < |s.drivers|
  {
    Refundable(s.db, b, ItemTotal(s.db.batches[b].items))
  }

  /** A replay that is left alone reaches its finaliser, and releases what the frozen balance covers. */
  lemma {:induction false} ReplayReleases(s: System, b: nat, next: nat) returns (events: seq<Event>)
    requires Ready(s) && Parked(s, b) && s.drivers[b].Creating? && next == s.drivers[b].next && Covers(s, b)
    ensures ReleasesIn(s, events, b) > 0
    decreases |s.db.batches[b].items| - next
  {
    hide Sum, Move;
    var e := Advance(b, NoMishap);
    ParkedMove(s.db, b, next, NoMishap);
    if next == |s.db.batches[b].items| {
      events := [e];
      ReleasesCons(s, e, [], b);
      assert [e] + [] == [e];
    } else {
      ParkedNext(s, b, e);
      var rest := ReplayReleases(Next(s, e), b, next + 1);
      ReleasesCons(s, e, rest, b);
      events := [e] + rest;
    }
  }

  ghost predicate SomeRunReleases(s: System, b: nat)
    requires Ready(s)
  {
    exists events :: ReleasesIn(s, events, b) > 0
  }

  lemma ReplayCanRelease(s: System, b: nat)
    requires Ready(s) && Parked(s, b) && s.drivers[b] == Idle && s.db.batches[b].key.Some? && Covers(s, b)
    ensures SomeRunReleases(s, b)
  {
    hide Sum;
    var x := s.db.batches[b];
    var e := Retry(x.sender, x.key);
    ParkedNext(s, b, e);
    var rest := ReplayReleases(Next(s, e), b, 0);
    ReleasesCons(s, e, rest, b);
    assert ReleasesIn(s, [e] + rest, b) > 0;
  }

  /** Other business freezes the batch total once more for the sender. */
  function FreezeMore(x: Batch): Event { Elsewhere(x.sender, 0, ItemTotal(x.items)) }

  /** Other business can always freeze enough money of the sender. */
  lemma FreezingCovers(s: System, b: nat)
    requires Ready(s) && Parked(s, b) && s.drivers[b] == Idle && ItemTotal(s.db.batches[b].items) > 0
    requires var a := s.db.batches[b].sender;
             && s.db.users[a].hasAccount && s.outside[a].frozen >= 0
             && s.db.books.accounts[a].available >= 0 && s.db.books.accounts[a].frozen >= 0
    ensures var s' := Next(s, FreezeMore(s.db.batches[b]));
            Parked(s', b) && s'.drivers[b] == Idle && Covers(s', b) && s'.db.batches == s.db.batches
  {
    hide Sum;
    ParkedNext(s, b, FreezeMore(s.db.batches[b]));
  }

  /** The money that a cancellation leaves frozen can be freed by some later run exactly when the batch has a key. */
  lemma StrandedMoneyIsFreedIff(s: System, b: nat)
    requires Inv(s) && R.Crashed(s, b) && NoneReleased(s.db.batches[b].items) && FailedTotal(s.db.batches[b].items) > 0
    ensures var s' := Next(s, Cancel(b, s.db.batches[b].sender));
            SomeRunReleases(s', b) <==> s.db.batches[b].key.Some?
  {
    hide Sum, Next, ReleasesIn, Phased;
    var s' := Next(s, Cancel(b, s.db.batches[b].sender));
    var a := s.db.batches[b].sender;
    CancelHolds(s, b);
    NextKeepsInv(s, Cancel(b, a));
    assert Exact(s', a);
    assert s'.db.books.accounts[a].Sound();
    if s.db.batches[b].key.Some? {
      TotalSplits(s.db.batches[b].items);
      NonNegative(s.db.batches[b].items);
      PaidNonNegative(s.db.batches[b].items);
      var e := FreezeMore(s'.db.batches[b]);
      FreezingCovers(s', b);
      ReplayCanRelease(Next(s', e), b);
      var events :| ReleasesIn(Next(s', e), events, b) > 0;
      ReleasesCons(s', e, events, b);
      assert ReleasesIn(s', [e] + events, b) > 0;
    } else if SomeRunReleases(s', b) {
      var events :| ReleasesIn(s', events, b) > 0;
      CancelStrandsFailedMoney(s, b, events);
    }
  }
}
