/**
 Crash recovery among other business: any two runs of the whole platform that complete a batch agree on its items, its
 counters, and its share in every balance, whatever other batches, accounts and users do in between.
*/
module BatchConcurrent {
  import opened Prelude
  import opened BatchModel
  import opened BatchEscrow
  import opened BatchProtocol
  import opened BatchRecovery

  /**
   The receivers of a batch keep their eligibility, and each of its items fails by the same exceptions in every run.
  */
  ghost predicate Governed(s: System, e: Event, b: nat, faults: set<nat>)
    requires Ready(s)
  {
    && (e.Advance? && e.batch == b && b < |s.drivers| ==> e.mishap == MishapOf(faults, CurrentItem(s.drivers[b])))
    && !(e.Cancel? && e.batch == b)
    && (e.ChangeUser? && b < |s.db.batches| ==>
          forall i :: 0 <= i < |s.db.batches[b].items| ==> s.db.batches[b].items[i].to != e.id)
  }

  ghost predicate GovernedRun(s: System, events: seq<Event>, b: nat, faults: set<nat>)
    requires Ready(s)
    decreases |events|
  {
    events == []
    || (GovernedRun(s, events[..|events| - 1], b, faults)
        && Governed(Run(s, events[..|events| - 1]), events[|events| - 1], b, faults))
  }

  /** `r` is a later state of `s` in which batch `b` still transfers the same amounts to the same receivers. */
  ghost predicate Tracks(s: System, r: System, b: nat, faults: set<nat>) {
    && b < |s.db.batches| && b < |r.db.batches| && b < |r.drivers|
    && var x, y := s.db.batches[b], r.db.batches[b];
       && y.sender == x.sender && |y.items| == |x.items|
       && Judged(r, b, faults)
       && forall i :: 0 <= i < |x.items| ==>
            && SameTransfer(x.items[i], y.items[i])
            && ReceiverFault(r.db.users, x.items[i].to) == ReceiverFault(s.db.users, x.items[i].to)
  }

  lemma OwnMoveTracks(s: System, r: System, b: nat, faults: set<nat>)
    requires Inv(r) && Tracks(s, r, b, faults)
    ensures Tracks(s, Next(r, Advance(b, MishapOf(faults, CurrentItem(r.drivers[b])))), b, faults)
  {
    hide Accounted, Move, Next, I.Valid;
    StepJudges(r, b, faults, Work);
    StepFrame(r, b, faults, Work);
    var r' := Step(r, b, faults, Work);
    forall i | 0 <= i < |s.db.batches[b].items|
      ensures SameTransfer(s.db.batches[b].items[i], r'.db.batches[b].items[i])
    {
      assert SameTransfer(r.db.batches[b].items[i], r'.db.batches[b].items[i]);
    }
  }

  lemma OtherEventTracks(s: System, r: System, b: nat, faults: set<nat>, e: Event)
    requires Inv(r) && Tracks(s, r, b, faults) && Governed(r, e, b, faults)
    requires !(e.Advance? && e.batch == b)
    ensures Tracks(s, Next(r, e), b, faults)
  {
    hide Accounted, Move, Phased, I.Valid, Sum;
    var r' := Next(r, e);
    if e.Advance? && ExistingBatch(r, e.batch) {
      MoveColumns(r.db, e.batch, r.drivers[e.batch], e.mishap);
    }
    assert r'.db.batches[b] == r.db.batches[b];
    forall i | 0 <= i < |s.db.batches[b].items|
      ensures ReceiverFault(r'.db.users, s.db.batches[b].items[i].to) ==
              ReceiverFault(r.db.users, s.db.batches[b].items[i].to)
    {
      assert SameTransfer(s.db.batches[b].items[i], r.db.batches[b].items[i]);
    }
  }

  lemma {:induction false} RunTracks(s: System, events: seq<Event>, b: nat, faults: set<nat>)
    requires Inv(s) && b < |s.drivers| && Judged(s, b, faults)
    requires OrderlyRun(s, events) && GovernedRun(s, events, b, faults)
    ensures Tracks(s, Run(s, events), b, faults)
    decreases |events|
  {
    hide Accounted, Phased, I.Valid, Next, Judged;
    if events != [] {
      var front, e := events[..|events| - 1], events[|events| - 1];
      RunTracks(s, front, b, faults);
      RunKeepsInv(s, front);
      var r := Run(s, front);
      if e.Advance? && e.batch == b {
        OwnMoveTracks(s, r, b, faults);
      } else {
        OtherEventTracks(s, r, b, faults, e);
      }
    }
  }

  /** The same statuses and counters, and the same share in every account's balances. */
  ghost predicate SameShares(x: Batch, y: Batch) {
    && x.successCount == y.successCount && x.failedCount == y.failedCount && |x.items| == |y.items|
    && (forall i :: 0 <= i < |x.items| ==> x.items[i].status == y.items[i].status)
    && forall a :: FrozenShare(a)(x) == FrozenShare(a)(y) && AvailableShare(a)(x) == AvailableShare(a)(y)
  }

  lemma SameStatusesSameShares(x: Batch, y: Batch)
    requires y.sender == x.sender && |x.items| == |y.items|
    requires forall i :: 0 <= i < |x.items| ==>
               SameTransfer(x.items[i], y.items[i]) && x.items[i].status == y.items[i].status
    requires Settled(x.items) && Settled(y.items) && ReleasedOnce(x.items) && ReleasedOnce(y.items)
    requires Counted(x.items, x.successCount, x.failedCount) && Counted(y.items, y.successCount, y.failedCount)
    ensures SameShares(x, y)
  {
    hide Sum;
    SameStatusesSameSums(x.items, y.items);
    SettledReturns(x.items);
    SettledReturns(y.items);
  }

  /**
   Any two runs of the whole platform that complete the batch, with different crashes, recoveries, harmless replays
   and other business, agree on it. By `Exact` each account's balances are the sum of such shares and of the outside
   flows, so runs that agree on everything else end with equal balances.
  */
  lemma CompletedAmongOthersAgree(s: System, events: seq<Event>, events': seq<Event>, b: nat, faults: set<nat>)
    requires Inv(s) && b < |s.drivers| && Judged(s, b, faults)
    requires OrderlyRun(s, events) && GovernedRun(s, events, b, faults)
    requires OrderlyRun(s, events') && GovernedRun(s, events', b, faults)
    ensures var r, r' := Run(s, events), Run(s, events');
            && b < |r.db.batches| && b < |r'.db.batches|
            && (r.db.batches[b].status == Completed == r'.db.batches[b].status ==>
                  SameShares(r.db.batches[b], r'.db.batches[b]))
  {
    hide Accounted, I.Valid, Next, Sum, SameShares;
    var r, r' := Run(s, events), Run(s, events');
    RunTracks(s, events, b, faults);
    RunTracks(s, events', b, faults);
    RunKeepsInv(s, events);
    RunKeepsInv(s, events');
    var x, y := r.db.batches[b], r'.db.batches[b];
    if x.status == Completed == y.status {
      assert InPhase(x, r.drivers[b]) && InPhase(y, r'.drivers[b]);
      forall i | 0 <= i < |x.items|
        ensures SameTransfer(x.items[i], y.items[i]) && x.items[i].status == y.items[i].status
      {
        assert SameTransfer(s.db.batches[b].items[i], x.items[i]) && SameTransfer(s.db.batches[b].items[i], y.items[i]);
      }
      SameStatusesSameShares(x, y);
    }
  }
}
